// Mentors.js: the mentor list of the `mentors` tab, and the date/group
// mentor table `group_note_mentors` (columns Date, Group, MentorID) with its
// union save, its two de-duplication passes and its read-back.
module Mentors {
  import opened Wrappers
  import opened Strings
  import opened Cells
  import opened Utils
  import opened Columns
  import opened Scan
  import opened Sorting

  // ---------------------------------------------------------- mentor list

  /** A record of the list getMentors returns. */
  datatype Mentor = Mentor(id: string, first: string, last: string, name: string, active: bool)

  /** The columns getMentors resolves from the header; without an id
      column the list is empty. */
  datatype MentorCols = MentorCols(id: Option<nat>, first: Option<nat>, last: Option<nat>, active: Option<nat>)

  const IdAliases: seq<string> := ["mentorid", "id", "employeeid", "staffid"]
  const FirstAliases: seq<string> := ["firstname", "first", "fname", "givenname"]
  const LastAliases: seq<string> := ["lastname", "last", "lname", "surname", "familyname"]
  const ActiveAliases: seq<string> := ["active", "isactive", "enabled", "status"]

  /** Header cells trimmed and normalised; a repeated key maps to its last
      column (new Map of [key, index] pairs); each field takes its first
      alias present. */
  function MentorColsOf(header: Row): MentorCols {
    var keys := HeaderKeys(header);
    MentorCols(Resolve(keys, IdAliases), Resolve(keys, FirstAliases),
               Resolve(keys, LastAliases), Resolve(keys, ActiveAliases))
  }

  const ActiveWords: seq<string> := ["true", "t", "yes", "y", "1", "✓"]

  /** The local toBool of getMentors: a boolean is itself, anything else is
      true when its trimmed, lower-cased text is one of ActiveWords. */
  function IsActive(c: Cell): bool {
    if c.Flag? then c.b else ToLower(Trim(StrOf(c))) in ActiveWords
  }

  /** (first || last) ? (first + ' ' + last).trim() : id */
  function DisplayName(first: string, last: string, id: string): string {
    if first != "" || last != "" then Trim(first + " " + last) else id
  }

  /** The record built from one data row. */
  function MentorOf(c: MentorCols, row: Row): Mentor {
    var id := FieldText(row, c.id);
    var first := FieldText(row, c.first);
    var last := FieldText(row, c.last);
    Mentor(id, first, last, DisplayName(first, last, id),
           if c.active.Some? then IsActive(Get(row, c.active)) else true)
  }

  function Records(c: MentorCols, data: seq<Row>): (ms: seq<Mentor>)
    ensures |ms| == |data|
  {
    seq(|data|, i requires 0 <= i < |data| => MentorOf(c, data[i]))
  }

  /** .filter(m => m.id).filter(m => activeOnly ? m.active : true) */
  function Listed(activeOnly: bool): Mentor -> bool {
    (m: Mentor) => m.id != "" && (!activeOnly || m.active)
  }

  /** The sort comparator read as `cmp(a, b) <= 0`: by last name, then by
      first name. */
  predicate NameLe(a: Mentor, b: Mentor) {
    StrLt(a.last, b.last) || (a.last == b.last && StrLe(a.first, b.first))
  }

  function ByName(): (Mentor, Mentor) -> bool {
    (a, b) => NameLe(a, b)
  }

  /** getMentors(activeOnly) on the header and data rows of the tab; an
      absent tab reads as an empty one. */
  function GetMentors(header: Row, data: seq<Row>, activeOnly: bool): seq<Mentor> {
    var c := MentorColsOf(header);
    if data == [] || c.id.None? then []
    else SortBy(Sift(Records(c, data), Listed(activeOnly), true, true), ByName())
  }

  lemma NameLeTotal()
    ensures TotalPreorder(ByName())
  {
    forall a: Mentor, b: Mentor ensures ByName()(a, b) || ByName()(b, a) {
      StrLeTotal(a.last, b.last);
      StrLeTotal(a.first, b.first);
    }
    forall a: Mentor, b: Mentor, d: Mentor | ByName()(a, b) && ByName()(b, d)
      ensures ByName()(a, d)
    {
      NameLeTrans(a, b, d);
    }
  }

  lemma NameLeTrans(a: Mentor, b: Mentor, d: Mentor)
    requires NameLe(a, b) && NameLe(b, d)
    ensures NameLe(a, d)
  {
    if a.last == b.last {
      if b.last == d.last {
        StrLeTrans(a.first, b.first, d.first);
      }
    } else {
      StrLeRefl(b.last);
      StrLeTrans(a.last, b.last, d.last);
      if a.last == d.last {
        StrLeAntisym(a.last, b.last);
      }
    }
  }

  /** The list is ordered by last name, then first name. */
  lemma GetMentorsSorted(header: Row, data: seq<Row>, activeOnly: bool)
    ensures SortedBy(GetMentors(header, data, activeOnly), ByName())
  {
    var c := MentorColsOf(header);
    if data != [] && c.id.Some? {
      NameLeTotal();
      SortBySorted(Sift(Records(c, data), Listed(activeOnly), true, true), ByName());
    }
  }

  /** A record is listed exactly when the header has an id column and some
      row yields it with a non-blank id, and it is active if activeOnly. */
  lemma GetMentorsMembers(header: Row, data: seq<Row>, activeOnly: bool, m: Mentor)
    ensures m in GetMentors(header, data, activeOnly) <==>
      MentorColsOf(header).id.Some? && m in Records(MentorColsOf(header), data) &&
      m.id != "" && (activeOnly ==> m.active)
  {
    var c := MentorColsOf(header);
    var ms := Records(c, data);
    if data != [] && c.id.Some? {
      var kept := Sift(ms, Listed(activeOnly), true, true);
      SortByElements(kept, ByName());
      SiftHas(ms, Listed(activeOnly), true, true, m);
    }
  }

  /** A first or last name that trim left non-blank keeps the joined name
      non-blank. */
  lemma DisplayNameNotBlank(first: string, last: string, id: string)
    requires NoEdgeSpace(first) && NoEdgeSpace(last) && id != ""
    ensures DisplayName(first, last, id) != ""
  {
    if first != "" || last != "" {
      var s := first + " " + last;
      BlankIffAllSpace(s);
      if first != "" {
        assert s[0] == first[0];
      } else {
        assert s[|s| - 1] == last[|last| - 1];
      }
    }
  }

  /** Every listed mentor has a non-blank id and a non-blank name, and is
      active when only active mentors are asked for. */
  lemma ListedMentor(header: Row, data: seq<Row>, activeOnly: bool, m: Mentor)
    requires m in GetMentors(header, data, activeOnly)
    ensures m.id != "" && m.name != "" && (activeOnly ==> m.active)
  {
    GetMentorsMembers(header, data, activeOnly, m);
    var c := MentorColsOf(header);
    var i :| 0 <= i < |data| && Records(c, data)[i] == m;
    DisplayNameNotBlank(m.first, m.last, m.id);
  }

  /** Without an active column every mentor counts as active, so activeOnly
      changes nothing. */
  lemma NoActiveColumn(header: Row, data: seq<Row>)
    requires MentorColsOf(header).active.None?
    ensures GetMentors(header, data, true) == GetMentors(header, data, false)
  {
    var c := MentorColsOf(header);
    var ms := Records(c, data);
    forall i | 0 <= i < |ms| ensures Listed(true)(ms[i]) == Listed(false)(ms[i]) {
      assert ms[i].active;
    }
    SiftAgree(ms, Listed(true), Listed(false), true, true);
  }

  /** The active list is part of the full one. */
  lemma ActiveAmongAll(header: Row, data: seq<Row>, m: Mentor)
    requires m in GetMentors(header, data, true)
    ensures m in GetMentors(header, data, false)
  {
    GetMentorsMembers(header, data, true, m);
    GetMentorsMembers(header, data, false, m);
  }

  /** The active flag ignores letter case and surrounding white space. */
  lemma IsActiveIgnoresCaseAndSpace(s: string, p: string, q: string)
    requires AllSpace(p) && AllSpace(q)
    ensures IsActive(Text(p + ToUpper(s) + q)) == IsActive(Text(s))
  {
    LowerTrimIgnoresCaseAndSpace(s, p, q);
  }

  // --------------------------------------------------- group_note_mentors

  /** The error a range write raises when a row's width differs from the
      range's three columns (the text is a stand-in). */
  const RangeMismatch: string := "The number of columns in the data does not match the number of columns in the range."

  /** A pass over the tab: its result and the header and data it leaves. */
  datatype Outcome<T> = Outcome(r: Result<T>, header: Row, data: seq<Row>)

  /** String(r[i]).trim(); a cell past the end of the row is undefined. */
  function RawText(row: Row, i: nat): string {
    if i < |row| then Trim(StrOf(row[i])) else "undefined"
  }

  /** A written row [date, group, id]. */
  function KeyRow(d: string, g: string, id: string): Row {
    [Text(d), Text(g), Text(id)]
  }

  function KeyRows(d: string, g: string, ids: seq<string>): (rs: seq<Row>)
    ensures |rs| == |ids|
    ensures forall i :: 0 <= i < |rs| ==> |rs[i]| == 3
  {
    seq(|ids|, i requires 0 <= i < |ids| => KeyRow(d, g, ids[i]))
  }

  /** Trimmed, upper-cased text: the form MentorIDs are stored in. */
  predicate IsIdForm(x: string) {
    NoEdgeSpace(x) && ToUpper(x) == x
  }

  lemma UpperTrimmedIsIdForm(s: string)
    ensures IsIdForm(ToUpper(Trim(s)))
  {
    LowerNoEdgeSpace(Trim(s));
    ToUpperIdempotent(Trim(s));
  }

  // ------------------------------------------------ dedupeGroupMentorsFor

  /** The (date, group) a row is filed under, read with String(r[i]).trim(). */
  function BlockKey(): Row -> (string, string) {
    (r: Row) => (RawText(r, 0), RawText(r, 1))
  }

  function Block(data: seq<Row>, d: string, g: string): seq<Row> {
    Sift(data, BlockKey(), (d, g), true)
  }

  function Rest(data: seq<Row>, d: string, g: string): seq<Row> {
    Sift(data, BlockKey(), (d, g), false)
  }

  /** String(r[2]).trim().toUpperCase() of each row. */
  function BlockIds(rows: seq<Row>): (ids: seq<string>)
    ensures |ids| == |rows|
  {
    seq(|rows|, i requires 0 <= i < |rows| => ToUpper(RawText(rows[i], 2)))
  }

  /** The rewrite both dedupe passes and the save end with: clearContents,
      then the header and the given rows written into three columns. The
      write raises unless the header is three cells wide, and the tab stays
      cleared; otherwise the pass returns v. */
  function Rewrite<T>(h: Row, rows: seq<Row>, v: T): Outcome<T> {
    if |h| != 3 then Outcome(Err(RangeMismatch), Blanks(|h|), [])
    else Outcome(Ok(v), h, rows)
  }

  /** clearContents() and getRange(1, 1, out.length, 3).setValues(out) with
      out = [header, ...keep, ...rows]: keep holds rows of the tab, rows
      holds rows of three cells. */
  method RewriteTab<T>(sh: Sheet, keep: seq<Row>, rows: seq<Row>, v: T) returns (r: Result<T>)
    requires sh.Valid()
    requires forall i :: 0 <= i < |keep| ==> |keep[i]| == sh.Width()
    requires forall i :: 0 <= i < |rows| ==> |rows[i]| == 3
    modifies sh
    ensures sh.Valid()
    ensures Outcome(r, sh.header, sh.data) == Rewrite(old(sh.header), keep + rows, v)
  {
    var header := sh.header;
    var out := [header] + keep + rows;
    WidthsOf(header, keep, rows);
    sh.ClearAll();
    var ok := sh.WriteFromTop(out, 3);
    if !ok {
      return Err(RangeMismatch);
    }
    assert out[1..] == keep + rows;
    PadAllFit(keep + rows, 3);
    PadFit(header);
    r := Ok(v);
  }

  /** Every row of the rewrite has three cells exactly when the header
      does. */
  lemma WidthsOf(h: Row, keep: seq<Row>, rows: seq<Row>)
    requires forall i :: 0 <= i < |keep| ==> |keep[i]| == |h|
    requires forall i :: 0 <= i < |rows| ==> |rows[i]| == 3
    ensures var out := [h] + keep + rows;
      (forall i :: 0 <= i < |out| ==> |out[i]| == 3) <==> |h| == 3
  {
    var out := [h] + keep + rows;
    assert out[0] == h;
    forall i | 0 <= i < |out|
      ensures |out[i]| == (if i <= |keep| then |h| else 3)
    {
      if 0 < i <= |keep| {
        assert out[i] == keep[i - 1];
      } else if i > |keep| {
        assert out[i] == rows[i - 1 - |keep|];
      }
    }
  }

  /** dedupeGroupMentorsFor on a present tab, with d and g the trimmed
      date and group texts. With no data or no row of the key nothing is
      written. Otherwise the tab is rewritten as header, the other rows,
      then one row per distinct non-blank upper-cased id, and removed is
      the number of the key's rows that went. */
  function DedupedFor(h: Row, data: seq<Row>, d: string, g: string): Outcome<nat> {
    if data == [] || Block(data, d, g) == [] then Outcome(Ok(0), h, data)
    else Regrouped(h, Rest(data, d, g), BlockIds(Block(data, d, g)), d, g)
  }

  /** The rewrite that follows the partition: the other rows, then the
      key's distinct ids; the count is how many of the key's rows went. */
  function Regrouped(h: Row, rest: seq<Row>, ids: seq<string>, d: string, g: string): Outcome<nat> {
    Rewrite<nat>(h, rest + KeyRows(d, g, Uniq(ids)), |ids| - |Uniq(ids)|)
  }

  lemma RegroupedAs(h: Row, rest: seq<Row>, all: seq<string>, d: string, g: string, ids: seq<string>, n: nat)
    requires ids == Uniq(all) && n == |all| - |ids|
    ensures Regrouped(h, rest, all, d, g) == Rewrite<nat>(h, rest + KeyRows(d, g, ids), n)
  {
    RegroupedUnfold(h, rest, all, d, g);
  }

  lemma RegroupedUnfold(h: Row, rest: seq<Row>, all: seq<string>, d: string, g: string)
    ensures Regrouped(h, rest, all, d, g) == Rewrite<nat>(h, rest + KeyRows(d, g, Uniq(all)), |all| - |Uniq(all)|)
  {
  }

  /** dedupeGroupMentorsFor(dateStr, groupName); a missing tab gives
      removed 0. */
  method DedupeGroupMentorsFor(sh: Sheet?, dateRaw: Cell, groupRaw: Cell) returns (r: Result<nat>)
    requires sh != null ==> sh.Valid()
    modifies sh
    ensures sh == null ==> r == Ok(0)
    ensures sh != null ==>
      sh.Valid() &&
      Outcome(r, sh.header, sh.data) == DedupedFor(old(sh.header), old(sh.data), CellText(dateRaw), CellText(groupRaw))
  {
    if sh == null {
      return Ok(0);
    }
    r := DedupeKey(sh, CellText(dateRaw), CellText(groupRaw));
  }

  /** The body of dedupeGroupMentorsFor once the tab is found. */
  method DedupeKey(sh: Sheet, d: string, g: string) returns (r: Result<nat>)
    requires sh.Valid()
    modifies sh
    ensures sh.Valid() && Outcome(r, sh.header, sh.data) == DedupedFor(old(sh.header), old(sh.data), d, g)
  {
    var keep, rows, n, change := PlanDedupe(sh.header, sh.data, d, g);
    if !change {
      return Ok(0);
    }
    r := RewriteTab<nat>(sh, keep, rows, n);
  }

  /** The partition and the distinct ids of dedupeGroupMentorsFor, before
      anything is written: either nothing changes, or the tab becomes the
      header, keep and rows, with n of the key's rows removed. */
  method PlanDedupe(h: Row, data: seq<Row>, d: string, g: string)
    returns (keep: seq<Row>, rows: seq<Row>, n: nat, change: bool)
    requires forall i :: 0 <= i < |data| ==> |data[i]| == |h|
    ensures forall i :: 0 <= i < |keep| ==> |keep[i]| == |h|
    ensures forall i :: 0 <= i < |rows| ==> |rows[i]| == 3
    ensures change ==> DedupedFor(h, data, d, g) == Rewrite<nat>(h, keep + rows, n)
    ensures !change ==> DedupedFor(h, data, d, g) == Outcome(Ok(0), h, data)
  {
    keep, rows, n, change := [], [], 0, false;
    if data == [] {
      return;
    }
    var other, block := Split(data, BlockKey(), (d, g));
    if block == [] {
      return;
    }
    var all := BlockIds(block);
    var ids := UniqueValues(all);
    SiftWidth(data, BlockKey(), (d, g), false, |h|);
    assert DedupedFor(h, data, d, g) == Regrouped(h, other, all, d, g);
    keep, rows, n, change := other, KeyRows(d, g, ids), |all| - |ids|, true;
    RegroupedAs(h, other, all, d, g, ids, n);
  }

  /** The trimmed text of a cell, or undefined, has no white space at its
      ends, and neither has its upper-case form. */
  lemma RawTextTrimmed(row: Row, i: nat)
    ensures NoEdgeSpace(RawText(row, i)) && IsIdForm(ToUpper(RawText(row, i)))
  {
    var s := RawText(row, i);
    assert NoEdgeSpace(s) by {
      if i >= |row| {
        assert s[0] == 'u' && s[|s| - 1] == 'd';
      }
    }
    LowerNoEdgeSpace(s);
    ToUpperIdempotent(s);
  }

  /** The rows written for a trimmed date and group are filed under them. */
  lemma KeyRowsUnder(d: string, g: string, ids: seq<string>)
    requires NoEdgeSpace(d) && NoEdgeSpace(g)
    ensures forall i :: 0 <= i < |ids| ==> BlockKey()(KeyRows(d, g, ids)[i]) == (d, g)
  {
    TrimOfTrimmed(d);
    TrimOfTrimmed(g);
  }

  /** Ids in stored form read back as themselves. */
  lemma BlockIdsOfKeyRows(d: string, g: string, ids: seq<string>)
    requires forall i :: 0 <= i < |ids| ==> IsIdForm(ids[i])
    ensures BlockIds(KeyRows(d, g, ids)) == ids
  {
    forall i | 0 <= i < |ids| ensures BlockIds(KeyRows(d, g, ids))[i] == ids[i] {
      TrimOfTrimmed(ids[i]);
    }
  }

  /** The ids a de-duplication keeps are in stored form. */
  lemma UniqBlockIdsForm(rows: seq<Row>)
    ensures forall i :: 0 <= i < |Uniq(BlockIds(rows))| ==> IsIdForm(Uniq(BlockIds(rows))[i])
  {
    var u := Uniq(BlockIds(rows));
    forall i | 0 <= i < |u| ensures IsIdForm(u[i]) {
      UniqHas(BlockIds(rows), u[i]);
      var j :| 0 <= j < |rows| && BlockIds(rows)[j] == u[i];
      RawTextTrimmed(rows[j], 2);
    }
  }

  /** On a three-column tab, the rows of other keys keep their order, and
      the key's rows become one row per distinct upper-cased id, in first
      occurrence order, after all the others. */
  lemma DedupeForMoves(h: Row, data: seq<Row>, dateRaw: Cell, groupRaw: Cell)
    requires |h| == 3
    ensures DedupedFor(h, data, CellText(dateRaw), CellText(groupRaw)).r.Ok?
    ensures DedupedFor(h, data, CellText(dateRaw), CellText(groupRaw)).header == h
    ensures Rest(DedupedFor(h, data, CellText(dateRaw), CellText(groupRaw)).data, CellText(dateRaw), CellText(groupRaw))
         == Rest(data, CellText(dateRaw), CellText(groupRaw))
    ensures Block(DedupedFor(h, data, CellText(dateRaw), CellText(groupRaw)).data, CellText(dateRaw), CellText(groupRaw))
         == KeyRows(CellText(dateRaw), CellText(groupRaw), Uniq(BlockIds(Block(data, CellText(dateRaw), CellText(groupRaw)))))
  {
    var d, g := CellText(dateRaw), CellText(groupRaw);
    var block := Block(data, d, g);
    if data != [] && block != [] {
      MovedRows(data, d, g, Uniq(BlockIds(block)));
    }
  }

  lemma MovedRows(data: seq<Row>, d: string, g: string, u: seq<string>)
    requires NoEdgeSpace(d) && NoEdgeSpace(g)
    ensures Rest(Rest(data, d, g) + KeyRows(d, g, u), d, g) == Rest(data, d, g)
    ensures Block(Rest(data, d, g) + KeyRows(d, g, u), d, g) == KeyRows(d, g, u)
  {
    var rest := Rest(data, d, g);
    var rows := KeyRows(d, g, u);
    SiftConcat(rest, rows, BlockKey(), (d, g), false);
    SiftConcat(rest, rows, BlockKey(), (d, g), true);
    SiftOfSift(data, BlockKey(), (d, g));
    KeyRowsUnder(d, g, u);
    SiftAll(rows, BlockKey(), (d, g));
  }

  /** The key's rows after the pass carry exactly the distinct non-blank
      upper-cased ids of its rows before. */
  lemma DedupeForIds(h: Row, data: seq<Row>, dateRaw: Cell, groupRaw: Cell, x: string)
    requires |h| == 3
    ensures var d, g := CellText(dateRaw), CellText(groupRaw);
      Distinct(BlockIds(Block(DedupedFor(h, data, d, g).data, d, g))) &&
      (x in BlockIds(Block(DedupedFor(h, data, d, g).data, d, g)) <==> x != "" && x in BlockIds(Block(data, d, g)))
  {
    var d, g := CellText(dateRaw), CellText(groupRaw);
    var u := Uniq(BlockIds(Block(data, d, g)));
    DedupeForMoves(h, data, dateRaw, groupRaw);
    UniqBlockIdsForm(Block(data, d, g));
    BlockIdsOfKeyRows(d, g, u);
    UniqDistinct(BlockIds(Block(data, d, g)));
    UniqHas(BlockIds(Block(data, d, g)), x);
  }

  /** A second pass over the same key removes nothing and changes nothing. */
  lemma DedupeForIdempotent(h: Row, data: seq<Row>, dateRaw: Cell, groupRaw: Cell)
    requires |h| == 3
    ensures var d, g := CellText(dateRaw), CellText(groupRaw);
      DedupedFor(h, DedupedFor(h, data, d, g).data, d, g) == Outcome(Ok(0), h, DedupedFor(h, data, d, g).data)
  {
    var d, g := CellText(dateRaw), CellText(groupRaw);
    var block := Block(data, d, g);
    if data != [] && block != [] {
      var u := Uniq(BlockIds(block));
      var data2 := Rest(data, d, g) + KeyRows(d, g, u);
      MovedRows(data, d, g, u);
      UniqBlockIdsForm(block);
      BlockIdsOfKeyRows(d, g, u);
      UniqDistinct(BlockIds(block));
      UniqOfDistinct(u);
      if u != [] {
        assert data2 != [];
      }
    }
  }

  /** The rows removed are exactly the rows by which the tab shrank. */
  lemma DedupeForCount(h: Row, data: seq<Row>, d: string, g: string)
    requires DedupedFor(h, data, d, g).r.Ok?
    ensures DedupedFor(h, data, d, g).r.value + |DedupedFor(h, data, d, g).data| == |data|
  {
    SiftCount(data, BlockKey(), (d, g));
  }

  // ------------------------------------------------ dedupeAllGroupMentors

  /** [date, group, UPPER id] of a row, each read with String(r[i]).trim(). */
  datatype Triple = Triple(date: string, group: string, id: string)

  function TripleOf(row: Row): Triple {
    Triple(RawText(row, 0), RawText(row, 1), ToUpper(RawText(row, 2)))
  }

  function Triples(data: seq<Row>): (ts: seq<Triple>)
    ensures |ts| == |data|
  {
    seq(|data|, i requires 0 <= i < |data| => TripleOf(data[i]))
  }

  /** The Map key [date, group, id].join('|'). */
  function JoinKey(t: Triple): string {
    t.date + "|" + t.group + "|" + t.id
  }

  function KeySeq(ts: seq<Triple>): (ks: seq<string>)
    ensures |ks| == |ts|
  {
    seq(|ts|, i requires 0 <= i < |ts| => JoinKey(ts[i]))
  }

  /** The distinct keys of the triples. */
  function Keys(ts: seq<Triple>): set<string> {
    set k | k in KeySeq(ts)
  }

  /** The Map's values in insertion order after the reverse scan over ts:
      the later rows are visited first, and a key is set only once. */
  function Survivors(ts: seq<Triple>): (r: seq<Triple>)
    ensures |r| <= |ts|
    decreases |ts|
  {
    if ts == [] then []
    else
      var later := Survivors(ts[1..]);
      if JoinKey(ts[0]) in KeySeq(later) then later else later + [ts[0]]
  }

  /** The sort comparator read as `cmp(a, b) <= 0`: by date, group, id. */
  predicate TripleLe(a: Triple, b: Triple) {
    StrLt(a.date, b.date) ||
    (a.date == b.date && (StrLt(a.group, b.group) || (a.group == b.group && StrLe(a.id, b.id))))
  }

  function ByTriple(): (Triple, Triple) -> bool {
    (a, b) => TripleLe(a, b)
  }

  function TripleRows(ts: seq<Triple>): (rs: seq<Row>)
    ensures |rs| == |ts|
    ensures forall i :: 0 <= i < |ts| ==> |rs[i]| == 3
  {
    seq(|ts|, i requires 0 <= i < |ts| => [Text(ts[i].date), Text(ts[i].group), Text(ts[i].id)])
  }

  /** The surviving triples in the order they are written. */
  function Sorted(data: seq<Row>): (u: seq<Triple>)
    ensures |u| <= |data|
  {
    SortBy(Survivors(Triples(data)), ByTriple())
  }

  /** dedupeAllGroupMentors on a present tab: with data, the tab is
      rewritten as the header and the sorted survivors, and removed counts
      the rows that went. */
  function DedupedAll(h: Row, data: seq<Row>): Outcome<nat> {
    if data == [] then Outcome(Ok(0), h, data)
    else Collapsed(h, |data|, Sorted(data))
  }

  /** The rewrite of n rows down to the kept triples. */
  function Collapsed(h: Row, n: nat, kept: seq<Triple>): Outcome<nat>
    requires |kept| <= n
  {
    Rewrite<nat>(h, TripleRows(kept), n - |kept|)
  }

  lemma CollapsedAs(h: Row, n: nat, kept: seq<Triple>, rows: seq<Row>, m: nat)
    requires |kept| <= n && rows == TripleRows(kept) && m == n - |kept|
    ensures Collapsed(h, n, kept) == Rewrite<nat>(h, rows, m)
  {
  }

  lemma CollapsedCount(h: Row, n: nat, kept: seq<Triple>, k: nat)
    requires |h| == 3 && |kept| == k <= n
    ensures Collapsed(h, n, kept).r == Ok(n - k)
  {
  }

  lemma KeySeqSnoc(ts: seq<Triple>, t: Triple)
    ensures KeySeq(ts + [t]) == KeySeq(ts) + [JoinKey(t)]
  {
  }

  /** The reverse scan `for (i = vals.length - 1; i >= 1; i--)` filling
      the Map. */
  method ScanLatest(ts: seq<Triple>) returns (vals: seq<Triple>)
    ensures vals == Survivors(ts)
  {
    var seen: set<string> := {};
    vals := [];
    var i := |ts|;
    while i > 0
      invariant 0 <= i <= |ts|
      invariant vals == Survivors(ts[i..])
      invariant forall k :: k in seen <==> k in KeySeq(vals)
    {
      i := i - 1;
      var t := ts[i];
      assert ts[i..][1..] == ts[i + 1..];
      KeySeqSnoc(vals, t);
      if JoinKey(t) !in seen {
        seen := seen + {JoinKey(t)};
        vals := vals + [t];
      }
    }
  }

  /** dedupeAllGroupMentors(); a missing tab raises. */
  method DedupeAllGroupMentors(sh: Sheet?) returns (r: Result<nat>)
    requires sh != null ==> sh.Valid()
    modifies sh
    ensures sh == null ==> r == Err("group_note_mentors not found")
    ensures sh != null ==>
      sh.Valid() && Outcome(r, sh.header, sh.data) == DedupedAll(old(sh.header), old(sh.data))
  {
    if sh == null {
      return Err("group_note_mentors not found");
    }
    if sh.data == [] {
      return Ok(0);
    }
    var rows, n := PlanCollapse(sh.header, sh.data);
    r := RewriteTab<nat>(sh, [], rows, n);
  }

  /** The latest distinct triples of the rows, sorted, as the rows to
      write, and the number of rows that go. */
  method PlanCollapse(h: Row, data: seq<Row>) returns (rows: seq<Row>, n: nat)
    requires data != []
    ensures forall i :: 0 <= i < |rows| ==> |rows[i]| == 3
    ensures DedupedAll(h, data) == Rewrite<nat>(h, [] + rows, n)
  {
    var vals := ScanLatest(Triples(data));
    var kept := SortBy(vals, ByTriple());
    rows, n := TripleRows(kept), |data| - |kept|;
    assert [] + rows == rows;
    CollapsedAs(h, |data|, kept, [] + rows, n);
  }

  /** Every key of the input has its survivor, and no two survivors share
      a key. */
  lemma {:induction false} SurvivorsKeys(ts: seq<Triple>)
    ensures forall k :: k in KeySeq(Survivors(ts)) <==> k in KeySeq(ts)
    ensures Distinct(KeySeq(Survivors(ts)))
    decreases |ts|
  {
    if ts != [] {
      var later := Survivors(ts[1..]);
      SurvivorsKeys(ts[1..]);
      assert KeySeq(ts) == [JoinKey(ts[0])] + KeySeq(ts[1..]);
      KeySeqSnoc(later, ts[0]);
    }
  }

  /** There are as many survivors as distinct keys. */
  lemma SurvivorsCount(ts: seq<Triple>)
    ensures |Survivors(ts)| == |Keys(ts)|
  {
    SurvivorsKeys(ts);
    DistinctCard(KeySeq(Survivors(ts)));
    assert (set k | k in KeySeq(Survivors(ts))) == Keys(ts);
  }

  /** The row kept for a key is its last: a triple no later triple shares
      a key with survives. */
  lemma {:induction false} SurvivorsKeepLast(ts: seq<Triple>, i: nat)
    requires i < |ts| && forall j :: i < j < |ts| ==> JoinKey(ts[j]) != JoinKey(ts[i])
    ensures ts[i] in Survivors(ts)
    decreases |ts|
  {
    if i == 0 {
      SurvivorsKeys(ts[1..]);
      assert JoinKey(ts[0]) !in KeySeq(ts[1..]);
    } else {
      SurvivorsKeepLast(ts[1..], i - 1);
    }
  }

  lemma TripleLeTotal()
    ensures TotalPreorder(ByTriple())
  {
    forall a: Triple, b: Triple ensures ByTriple()(a, b) || ByTriple()(b, a) {
      StrLeTotal(a.date, b.date);
      StrLeTotal(a.group, b.group);
      StrLeTotal(a.id, b.id);
    }
    forall a: Triple, b: Triple, c: Triple | ByTriple()(a, b) && ByTriple()(b, c)
      ensures ByTriple()(a, c)
    {
      TripleLeTrans(a, b, c);
    }
  }

  /** StrLt followed by StrLe, or StrLe followed by StrLt, is StrLt. */
  lemma StrLtChain(a: string, b: string, c: string)
    requires (StrLt(a, b) && StrLe(b, c)) || (StrLe(a, b) && StrLt(b, c))
    ensures StrLt(a, c)
  {
    StrLeTrans(a, b, c);
    if a == c {
      StrLeAntisym(a, b);
    }
  }

  lemma TripleLeTrans(a: Triple, b: Triple, c: Triple)
    requires TripleLe(a, b) && TripleLe(b, c)
    ensures TripleLe(a, c)
  {
    StrLeRefl(b.date);
    StrLeRefl(b.group);
    if a.date != b.date || b.date != c.date {
      StrLtChain(a.date, b.date, c.date);
    } else if a.group != b.group || b.group != c.group {
      StrLtChain(a.group, b.group, c.group);
    } else {
      StrLeTrans(a.id, b.id, c.id);
    }
  }

  /** On a three-column tab with data the pass succeeds, removed is the
      number of rows less the number of distinct keys, and the rows
      written are in date, group, id order, one per distinct key. */
  lemma DedupeAllResult(h: Row, data: seq<Row>)
    requires |h| == 3 && data != []
    ensures DedupedAll(h, data).r == Ok(|data| - |Keys(Triples(data))|)
    ensures SortedBy(Sorted(data), ByTriple())
    ensures Keys(Sorted(data)) == Keys(Triples(data))
    ensures Distinct(KeySeq(Sorted(data)))
  {
    var ts := Triples(data);
    var s := Survivors(ts);
    SurvivorsCount(ts);
    SurvivorsKeys(ts);
    TripleLeTotal();
    SortBySorted(s, ByTriple());
    SortedKeys(s);
    CollapsedCount(h, |data|, Sorted(data), |Keys(ts)|);
  }

  /** Sorting keeps the keys and their distinctness. */
  lemma SortedKeys(s: seq<Triple>)
    requires Distinct(KeySeq(s))
    ensures Keys(SortBy(s, ByTriple())) == Keys(s)
    ensures Distinct(KeySeq(SortBy(s, ByTriple())))
  {
    var u := SortBy(s, ByTriple());
    SortByElements(s, ByTriple());
    forall k ensures k in KeySeq(u) <==> k in KeySeq(s) {
      if k in KeySeq(u) {
        var i :| 0 <= i < |u| && KeySeq(u)[i] == k;
        assert u[i] in s;
        var j :| 0 <= j < |s| && s[j] == u[i];
        assert KeySeq(s)[j] == k;
      }
      if k in KeySeq(s) {
        var i :| 0 <= i < |s| && KeySeq(s)[i] == k;
        assert s[i] in u;
        var j :| 0 <= j < |u| && u[j] == s[i];
        assert KeySeq(u)[j] == k;
      }
    }
    assert Keys(u) == Keys(s);
    DistinctCard(KeySeq(s));
    CardDistinct(KeySeq(u));
  }

  /** The last row of each key is among the rows written. */
  lemma DedupeAllKeepsLast(h: Row, data: seq<Row>, i: nat)
    requires |h| == 3 && i < |data|
    requires forall j :: i < j < |data| ==> JoinKey(TripleOf(data[j])) != JoinKey(TripleOf(data[i]))
    ensures TripleRows([TripleOf(data[i])])[0] in DedupedAll(h, data).data
  {
    var ts := Triples(data);
    SurvivorsKeepLast(ts, i);
    SortByElements(Survivors(ts), ByTriple());
    var u := Sorted(data);
    var k :| 0 <= k < |u| && u[k] == ts[i];
    assert TripleRows(u)[k] == TripleRows([TripleOf(data[i])])[0];
  }

  // ----------------------------------------------------- saveGroupMentors

  const MissingGroup: string := "Missing group."

  /** The counts saveGroupMentors reports with ok: true. */
  datatype SaveSummary = SaveSummary(mentorsSaved: nat, addedNew: nat)

  /** Math.max(0, n). */
  function Max0(n: int): (r: nat)
    ensures r >= n && (r == 0 || r == n)
  {
    if n > 0 then n else 0
  }

  /** ymd_(dateStr), or today's yyyy-MM-dd when that is blank. */
  function SaveDay(dateRaw: Cell, today: Day): string {
    var d := Ymd(dateRaw);
    if d != "" then d else FormatYmd(today)
  }

  /** The key saveGroupMentors compares a stored row with: ymd_(r[0]) and
      String(r[1] == null ? '' : r[1]).trim(). */
  function SaveKey(): Row -> (string, string) {
    (r: Row) => (Ymd(At(r, 0)), Str(r, Some(1)))
  }

  /** String(r[2] == null ? '' : r[2]).trim().toUpperCase() of each row. */
  function RowIds(rows: seq<Row>): (ids: seq<string>)
    ensures |ids| == |rows|
  {
    seq(|rows|, i requires 0 <= i < |rows| => ToUpper(Str(rows[i], Some(2))))
  }

  /** String(m && m.id || '').trim().toUpperCase() of each incoming
      mentor, given as its id cell. */
  function IncomingIds(mentors: seq<Cell>): (ids: seq<string>)
    ensures |ids| == |mentors|
  {
    seq(|mentors|, i requires 0 <= i < |mentors| => ToUpper(CellText(mentors[i])))
  }

  /** new Set([...existingForKey, ...incoming]), with both sets built from
      the non-blank values in order of first appearance. */
  function Union(found: seq<string>, given: seq<string>): seq<string> {
    Uniq(Uniq(found) + Uniq(given))
  }

  /** The rewrite once the rows are partitioned: the others, then one row
      per id of the union fin; the summary counts fin and what it adds to
      the stored ids ex. */
  function Merged(h: Row, rest: seq<Row>, ex: seq<string>, fin: seq<string>, d: string, g: string): Outcome<SaveSummary> {
    Rewrite<SaveSummary>(h, rest + KeyRows(d, g, fin), SaveSummary(|fin|, Max0(|fin| - |ex|)))
  }

  /** saveGroupMentors on a present tab for the date key d: a blank group
      is refused with the tab untouched; otherwise the rows of (d, g) are
      replaced by the union of their ids and the incoming ones. */
  function SavedFor(h: Row, data: seq<Row>, d: string, g: string, mentors: seq<Cell>): Outcome<SaveSummary> {
    if g == "" then Outcome(Err(MissingGroup), h, data)
    else
      Merged(h, Sift(data, SaveKey(), (d, g), false), Uniq(Stored(data, d, g)),
             Union(Stored(data, d, g), IncomingIds(mentors)), d, g)
  }

  /** The ids stored under (d, g), as read from the rows. */
  function Stored(data: seq<Row>, d: string, g: string): seq<string> {
    RowIds(Sift(data, SaveKey(), (d, g), true))
  }

  /** saveGroupMentors(dateStr, groupName, mentors) on the tab; today is
      the day new Date() falls on. */
  method SaveGroupMentors(sh: Sheet, dateRaw: Cell, groupRaw: Cell, mentors: seq<Cell>, today: Day)
    returns (r: Result<SaveSummary>)
    requires sh.Valid()
    modifies sh
    ensures sh.Valid()
    ensures Outcome(r, sh.header, sh.data)
         == SavedFor(old(sh.header), old(sh.data), SaveDay(dateRaw, today), CellText(groupRaw), mentors)
  {
    var d := SaveDay(dateRaw, today);
    var g := CellText(groupRaw);
    if g == "" {
      return Err(MissingGroup);
    }
    var keep, rows, v := PlanSave(sh.header, sh.data, d, g, mentors);
    r := RewriteTab<SaveSummary>(sh, keep, rows, v);
  }

  /** The partition and the union of saveGroupMentors, before anything is
      written. */
  method PlanSave(h: Row, data: seq<Row>, d: string, g: string, mentors: seq<Cell>)
    returns (keep: seq<Row>, rows: seq<Row>, v: SaveSummary)
    requires g != ""
    requires forall i :: 0 <= i < |data| ==> |data[i]| == |h|
    ensures forall i :: 0 <= i < |keep| ==> |keep[i]| == |h|
    ensures forall i :: 0 <= i < |rows| ==> |rows[i]| == 3
    ensures SavedFor(h, data, d, g, mentors) == Rewrite<SaveSummary>(h, keep + rows, v)
  {
    var given := IncomingIds(mentors);
    var incoming := UniqueValues(given);
    var others, block := Split(data, SaveKey(), (d, g));
    var found := RowIds(block);
    var existing := UniqueValues(found);
    var fin := UniqueValues(existing + incoming);
    SiftWidth(data, SaveKey(), (d, g), false, |h|);
    keep, rows, v := others, KeyRows(d, g, fin), SaveSummary(|fin|, Max0(|fin| - |existing|));
    assert found == Stored(data, d, g);
    assert fin == Union(found, given);
    SavedForIs(h, data, d, g, mentors, others, existing, fin, v);
  }

  lemma SavedForIs(h: Row, data: seq<Row>, d: string, g: string, mentors: seq<Cell>,
                   rest: seq<Row>, ex: seq<string>, fin: seq<string>, v: SaveSummary)
    requires g != "" && rest == Sift(data, SaveKey(), (d, g), false)
    requires ex == Uniq(Stored(data, d, g)) && fin == Union(Stored(data, d, g), IncomingIds(mentors))
    requires v == SaveSummary(|fin|, Max0(|fin| - |ex|))
    ensures SavedFor(h, data, d, g, mentors) == Rewrite<SaveSummary>(h, rest + KeyRows(d, g, fin), v)
  {
    assert SavedFor(h, data, d, g, mentors) == Merged(h, rest, ex, fin, d, g);
  }

  /** The header saveGroupMentors writes into a tab it has to create. */
  const MentorTabHeader: Row := [Text("Date"), Text("Group"), Text("MentorID")]

  /** Values built by trimming and upper-casing are in id form. */
  lemma IdsInForm(found: seq<Row>, mentors: seq<Cell>)
    ensures forall i :: 0 <= i < |RowIds(found)| ==> IsIdForm(RowIds(found)[i])
    ensures forall i :: 0 <= i < |IncomingIds(mentors)| ==> IsIdForm(IncomingIds(mentors)[i])
  {
    forall i | 0 <= i < |found| ensures IsIdForm(RowIds(found)[i]) {
      UpperTrimmedIsIdForm(StrOf(Get(found[i], Some(2))));
    }
    forall i | 0 <= i < |mentors| ensures IsIdForm(IncomingIds(mentors)[i]) {
      UpperTrimmedIsIdForm(StrOr(mentors[i]));
    }
  }

  /** The union holds exactly the non-blank ids of both lists, once each;
      it starts with the stored ids, and what follows them is exactly the
      incoming ids not stored before. */
  lemma UnionHas(found: seq<string>, given: seq<string>)
    ensures Distinct(Union(found, given)) && "" !in Union(found, given)
    ensures forall x :: x in Union(found, given) <==> x != "" && (x in found || x in given)
    ensures |Uniq(found)| <= |Union(found, given)|
    ensures Union(found, given)[..|Uniq(found)|] == Uniq(found)
    ensures forall x :: x in Union(found, given)[|Uniq(found)|..] <==> x != "" && x in given && x !in found
  {
    var ex, inc := Uniq(found), Uniq(given);
    UniqDistinct(found);
    UniqDistinct(ex + inc);
    UniqUnion(ex, inc);
    forall x ensures x != "" ==> (x in found <==> x in ex) && (x in given <==> x in inc) {
      UniqHas(found, x);
      UniqHas(given, x);
    }
  }

  /** Every id in the union is in id form when the lists are. */
  lemma UnionInForm(found: seq<string>, given: seq<string>)
    requires forall i :: 0 <= i < |found| ==> IsIdForm(found[i])
    requires forall i :: 0 <= i < |given| ==> IsIdForm(given[i])
    ensures forall i :: 0 <= i < |Union(found, given)| ==> IsIdForm(Union(found, given)[i])
  {
    UnionHas(found, given);
    var u := Union(found, given);
    forall i | 0 <= i < |u| ensures IsIdForm(u[i]) {
      assert u[i] in u;
      assert u[i] in found || u[i] in given;
    }
  }

  /** The rows written for a key read back under that key. */
  lemma KeyRowsSaveKey(d: string, g: string, ids: seq<string>)
    requires |d| <= 10 && NoEdgeSpace(d) && NoEdgeSpace(g)
    ensures forall i :: 0 <= i < |ids| ==> SaveKey()(KeyRows(d, g, ids)[i]) == (d, g)
  {
    YmdOfKey(d);
    TrimOfTrimmed(g);
  }

  lemma RowIdsOfKeyRows(d: string, g: string, ids: seq<string>)
    requires forall i :: 0 <= i < |ids| ==> IsIdForm(ids[i])
    ensures RowIds(KeyRows(d, g, ids)) == ids
  {
    forall i | 0 <= i < |ids| ensures RowIds(KeyRows(d, g, ids))[i] == ids[i] {
      TrimOfTrimmed(ids[i]);
    }
  }

  /** Where the union goes: with a three-column header and a non-blank
      group, the save succeeds, keeps the header and every other row in
      order, and leaves exactly one row per id of the union under the key;
      mentorsSaved counts the union and addedNew the ids it adds. */
  lemma SaveMerges(h: Row, data: seq<Row>, d: string, g: string, mentors: seq<Cell>)
    requires |h| == 3 && g != ""
    requires |d| <= 10 && NoEdgeSpace(d) && NoEdgeSpace(g)
    ensures SavedFor(h, data, d, g, mentors).r.Ok?
    ensures SavedFor(h, data, d, g, mentors).r.value.mentorsSaved == |Union(Stored(data, d, g), IncomingIds(mentors))|
    ensures SavedFor(h, data, d, g, mentors).r.value.addedNew + |Uniq(Stored(data, d, g))|
         == |Union(Stored(data, d, g), IncomingIds(mentors))|
    ensures SavedFor(h, data, d, g, mentors).header == h
    ensures SavedFor(h, data, d, g, mentors).data
         == Sift(data, SaveKey(), (d, g), false) + KeyRows(d, g, Union(Stored(data, d, g), IncomingIds(mentors)))
    ensures Sift(SavedFor(h, data, d, g, mentors).data, SaveKey(), (d, g), false) == Sift(data, SaveKey(), (d, g), false)
    ensures Sift(SavedFor(h, data, d, g, mentors).data, SaveKey(), (d, g), true)
         == KeyRows(d, g, Union(Stored(data, d, g), IncomingIds(mentors)))
  {
    var found := Stored(data, d, g);
    var given := IncomingIds(mentors);
    var rest, ex, fin := Sift(data, SaveKey(), (d, g), false), Uniq(found), Union(found, given);
    UnionHas(found, given);
    assert SavedFor(h, data, d, g, mentors) == Merged(h, rest, ex, fin, d, g);
    MergedShape(h, rest, ex, fin, d, g);
    MovedUnder(data, d, g, fin);
  }

  lemma MergedShape(h: Row, rest: seq<Row>, ex: seq<string>, fin: seq<string>, d: string, g: string)
    requires |h| == 3 && |ex| <= |fin|
    ensures Merged(h, rest, ex, fin, d, g).r.Ok?
    ensures Merged(h, rest, ex, fin, d, g).r.value.mentorsSaved == |fin|
    ensures Merged(h, rest, ex, fin, d, g).r.value.addedNew + |ex| == |fin|
    ensures Merged(h, rest, ex, fin, d, g).header == h
    ensures Merged(h, rest, ex, fin, d, g).data == rest + KeyRows(d, g, fin)
  {
  }

  lemma MovedUnder(data: seq<Row>, d: string, g: string, u: seq<string>)
    requires |d| <= 10 && NoEdgeSpace(d) && NoEdgeSpace(g)
    ensures var rest := Sift(data, SaveKey(), (d, g), false);
      Sift(rest + KeyRows(d, g, u), SaveKey(), (d, g), false) == rest &&
      Sift(rest + KeyRows(d, g, u), SaveKey(), (d, g), true) == KeyRows(d, g, u)
  {
    var rest := Sift(data, SaveKey(), (d, g), false);
    var rows := KeyRows(d, g, u);
    SiftConcat(rest, rows, SaveKey(), (d, g), false);
    SiftConcat(rest, rows, SaveKey(), (d, g), true);
    SiftOfSift(data, SaveKey(), (d, g));
    KeyRowsSaveKey(d, g, u);
    SiftAll(rows, SaveKey(), (d, g));
  }

  /** No stored mentor is ever removed: every non-blank id under the key
      is still there after the save, next to every incoming one. */
  lemma SaveKeepsExisting(h: Row, data: seq<Row>, d: string, g: string, mentors: seq<Cell>, x: string)
    requires |h| == 3 && g != ""
    requires |d| <= 10 && NoEdgeSpace(d) && NoEdgeSpace(g)
    requires x != "" && (x in Stored(data, d, g) || x in IncomingIds(mentors))
    ensures x in Stored(SavedFor(h, data, d, g, mentors).data, d, g)
  {
    var found, given := Stored(data, d, g), IncomingIds(mentors);
    SaveMerges(h, data, d, g, mentors);
    UnionHas(found, given);
    IdsInForm(Sift(data, SaveKey(), (d, g), true), mentors);
    UnionInForm(found, given);
    RowIdsOfKeyRows(d, g, Union(found, given));
  }

  /** Saving the same list again changes nothing and adds no id. */
  lemma SaveTwice(h: Row, data: seq<Row>, d: string, g: string, mentors: seq<Cell>)
    requires |h| == 3 && g != ""
    requires |d| <= 10 && NoEdgeSpace(d) && NoEdgeSpace(g)
    ensures SavedFor(h, SavedFor(h, data, d, g, mentors).data, d, g, mentors).r.Ok?
    ensures SavedFor(h, SavedFor(h, data, d, g, mentors).data, d, g, mentors).r.value.addedNew == 0
    ensures SavedFor(h, SavedFor(h, data, d, g, mentors).data, d, g, mentors).data == SavedFor(h, data, d, g, mentors).data
  {
    var found, given := Stored(data, d, g), IncomingIds(mentors);
    var fin := Union(found, given);
    var data2 := SavedFor(h, data, d, g, mentors).data;
    SaveMerges(h, data, d, g, mentors);
    UnionHas(found, given);
    IdsInForm(Sift(data, SaveKey(), (d, g), true), mentors);
    UnionInForm(found, given);
    RowIdsOfKeyRows(d, g, fin);
    assert Stored(data2, d, g) == fin;
    UnionAbsorbs(fin, given);
    SaveMerges(h, data2, d, g, mentors);
  }

  /** A union that already holds every non-blank incoming id is a fixed
      point. */
  lemma UnionAbsorbs(fin: seq<string>, given: seq<string>)
    requires Distinct(fin) && "" !in fin
    requires forall x :: x in given && x != "" ==> x in fin
    ensures Union(fin, given) == fin && Uniq(fin) == fin
  {
    var inc := Uniq(given);
    UniqOfDistinct(fin);
    UniqUnion(fin, inc);
    var u := Uniq(fin + inc);
    if |u| > |fin| {
      var x := u[|fin|];
      assert x in u[|fin|..];
      UniqHas(given, x);
      assert false;
    }
    assert u == u[..|fin|];
  }

  /** Into a tab it has just created, saveGroupMentors writes one row per
      distinct incoming id and counts them all as new. */
  lemma SaveIntoNewTab(d: string, g: string, mentors: seq<Cell>)
    requires g != ""
    ensures SavedFor(MentorTabHeader, [], d, g, mentors).r.Ok?
    ensures SavedFor(MentorTabHeader, [], d, g, mentors).r.value.mentorsSaved == |Uniq(IncomingIds(mentors))|
    ensures SavedFor(MentorTabHeader, [], d, g, mentors).r.value.addedNew == |Uniq(IncomingIds(mentors))|
    ensures SavedFor(MentorTabHeader, [], d, g, mentors).data == KeyRows(d, g, Uniq(IncomingIds(mentors)))
  {
    var given := IncomingIds(mentors);
    assert Stored([], d, g) == [];
    assert [] + Uniq(given) == Uniq(given);
    UniqDistinct(given);
    UniqOfDistinct(Uniq(given));
    assert Union([], given) == Uniq(given);
    MergedShape(MentorTabHeader, [], [], Uniq(given), d, g);
  }

  // ------------------------------------------------------ getGroupMentors

  /** The key getGroupMentors compares a stored row with: ymd_(r[0]) and
      String(r[1] || '').trim(). */
  function GetKey(): Row -> (string, string) {
    (r: Row) => (Ymd(At(r, 0)), FieldText(r, Some(1)))
  }

  /** String(r[2] || '').trim() of each row. */
  function GotIds(rows: seq<Row>): (ids: seq<string>)
    ensures |ids| == |rows|
  {
    seq(|rows|, i requires 0 <= i < |rows| => FieldText(rows[i], Some(2)))
  }

  /** getGroupMentors(dateStr, groupName) over the data rows of the tab
      (a missing tab reads as no rows): the ids of the rows under the date
      and group, in order; nothing for a blank date or group. */
  function GetGroupMentors(data: seq<Row>, dateRaw: Cell, groupRaw: Cell): seq<string> {
    if Ymd(dateRaw) == "" || CellText(groupRaw) == "" then []
    else GotIds(Sift(data, GetKey(), (Ymd(dateRaw), CellText(groupRaw)), true))
  }

  /** An id is listed exactly when some row under the key holds it. */
  lemma GetGroupMentorsHas(data: seq<Row>, dateRaw: Cell, groupRaw: Cell, x: string)
    ensures x in GetGroupMentors(data, dateRaw, groupRaw) <==>
      Ymd(dateRaw) != "" && CellText(groupRaw) != "" &&
      exists r :: r in data && GetKey()(r) == (Ymd(dateRaw), CellText(groupRaw)) && FieldText(r, Some(2)) == x
  {
    if Ymd(dateRaw) != "" && CellText(groupRaw) != "" {
      SiftedIds(data, (Ymd(dateRaw), CellText(groupRaw)), x);
    }
  }

  lemma SiftedIds(data: seq<Row>, k: (string, string), x: string)
    ensures x in GotIds(Sift(data, GetKey(), k, true)) <==>
      exists r :: r in data && GetKey()(r) == k && FieldText(r, Some(2)) == x
  {
    var block := Sift(data, GetKey(), k, true);
    if x in GotIds(block) {
      var i :| 0 <= i < |block| && GotIds(block)[i] == x;
      assert block[i] in block;
      SiftHas(data, GetKey(), k, true, block[i]);
    }
    if exists r :: r in data && GetKey()(r) == k && FieldText(r, Some(2)) == x {
      var r :| r in data && GetKey()(r) == k && FieldText(r, Some(2)) == x;
      SiftHas(data, GetKey(), k, true, r);
      var i :| 0 <= i < |block| && block[i] == r;
      assert GotIds(block)[i] == x;
    }
  }

  /** A row getGroupMentors reads under a non-blank group is one
      saveGroupMentors files under the same key. */
  lemma GetKeyIsSaveKey(r: Row, d: string, g: string)
    requires g != "" && GetKey()(r) == (d, g)
    ensures SaveKey()(r) == (d, g)
  {
    var c := At(r, 1);
    assert Trim(StrOr(c)) == g;
    assert Truthy(c);
  }

  lemma KeyRowsGetKey(d: string, g: string, ids: seq<string>)
    requires |d| <= 10 && NoEdgeSpace(d) && NoEdgeSpace(g) && g != ""
    requires forall i :: 0 <= i < |ids| ==> NoEdgeSpace(ids[i]) && ids[i] != ""
    ensures forall i :: 0 <= i < |ids| ==> GetKey()(KeyRows(d, g, ids)[i]) == (d, g)
    ensures GotIds(KeyRows(d, g, ids)) == ids
  {
    YmdOfKey(d);
    CellTextOfTrimmed(g);
    forall i | 0 <= i < |ids| ensures GotIds(KeyRows(d, g, ids))[i] == ids[i] {
      CellTextOfTrimmed(ids[i]);
    }
  }

  /** What saveGroupMentors stores for a date and group, getGroupMentors
      reads back: exactly the union, in order. */
  lemma SaveThenGet(h: Row, data: seq<Row>, dateRaw: Cell, groupRaw: Cell, mentors: seq<Cell>, today: Day)
    requires |h| == 3 && CellText(groupRaw) != ""
    requires Ymd(dateRaw) != "" && |Ymd(dateRaw)| <= 10 && NoEdgeSpace(Ymd(dateRaw))
    ensures GetGroupMentors(SavedFor(h, data, SaveDay(dateRaw, today), CellText(groupRaw), mentors).data, dateRaw, groupRaw)
         == Union(Stored(data, Ymd(dateRaw), CellText(groupRaw)), IncomingIds(mentors))
  {
    var d, g := Ymd(dateRaw), CellText(groupRaw);
    assert SaveDay(dateRaw, today) == d;
    var found, given := Stored(data, d, g), IncomingIds(mentors);
    var fin := Union(found, given);
    var rest := Sift(data, SaveKey(), (d, g), false);
    SaveMerges(h, data, d, g, mentors);
    UnionHas(found, given);
    IdsInForm(Sift(data, SaveKey(), (d, g), true), mentors);
    UnionInForm(found, given);
    forall i | 0 <= i < |fin| ensures NoEdgeSpace(fin[i]) && fin[i] != "" {
      assert fin[i] in fin;
    }
    KeyRowsGetKey(d, g, fin);
    forall i | 0 <= i < |rest| ensures GetKey()(rest[i]) != (d, g) {
      assert rest[i] in rest;
      SiftHas(data, SaveKey(), (d, g), false, rest[i]);
      if GetKey()(rest[i]) == (d, g) {
        GetKeyIsSaveKey(rest[i], d, g);
      }
    }
    SiftNone(rest, GetKey(), (d, g));
    SiftAll(KeyRows(d, g, fin), GetKey(), (d, g));
    SiftConcat(rest, KeyRows(d, g, fin), GetKey(), (d, g), true);
    assert [] + KeyRows(d, g, fin) == KeyRows(d, g, fin);
  }
}
