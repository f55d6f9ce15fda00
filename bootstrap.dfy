// The write half of bootstrapKnownStudents (SignInServer.js): the ids of the
// Known Students tab are read first; after the three collectors ran, the
// aggregated ids are sorted and every id the tab does not know yet is
// upserted with the aggregate's fields, its lastSignIn as the sign-in
// stamp, and the current time as CreatedAt. The summary counts the rows
// added and the ids skipped because the tab already had them.
module Bootstrap {
  import opened Wrappers
  import opened Strings
  import opened Cells
  import opened Sorting
  import opened KnownStudents
  import opened Aggregates
  import Queue

  // ------------------------------------------------------------ known ids

  /** The knownIds set: every non-blank id of an existing row. */
  function KnownIdSet(data: seq<Row>, c: KnownCols): set<string> {
    if data == [] then {}
    else
      var id := FieldText(data[|data| - 1], c.id);
      KnownIdSet(data[..|data| - 1], c) + (if id != "" then {id} else {})
  }

  /** Some row of the data holds the id. */
  ghost predicate HasRow(data: seq<Row>, c: KnownCols, id: string) {
    exists j :: 0 <= j < |data| && FieldText(data[j], c.id) == id
  }

  lemma HasRowSnoc(init: seq<Row>, row: Row, c: KnownCols, id: string)
    ensures HasRow(init + [row], c, id) <==> HasRow(init, c, id) || FieldText(row, c.id) == id
  {
    var data := init + [row];
    if HasRow(init, c, id) {
      var j :| 0 <= j < |init| && FieldText(init[j], c.id) == id;
      assert data[j] == init[j];
    }
    if HasRow(data, c, id) {
      var j :| 0 <= j < |data| && FieldText(data[j], c.id) == id;
      if j < |init| {
        assert init[j] == data[j];
      }
    }
    assert data[|init|] == row;
  }

  lemma {:induction false} KnownIdSetMembers(data: seq<Row>, c: KnownCols, id: string)
    ensures id in KnownIdSet(data, c) <==> id != "" && HasRow(data, c, id)
    decreases |data|
  {
    if data != [] {
      var init := data[..|data| - 1];
      var row := data[|data| - 1];
      assert data == init + [row];
      KnownIdSetMembers(init, c, id);
      HasRowSnoc(init, row, c, id);
    }
  }

  /** An id the set does not know has no row for the upsert to find. */
  lemma UnknownHasNoRow(data: seq<Row>, c: KnownCols, id: string)
    requires id != "" && id !in KnownIdSet(data, c)
    ensures KnownRowOf(data, c, id).None?
  {
    KnownIdSetMembers(data, c, id);
  }

  lemma KnownIdSetSnoc(data: seq<Row>, c: KnownCols, row: Row)
    ensures KnownIdSet(data + [row], c)
            == KnownIdSet(data, c) + (if FieldText(row, c.id) != "" then {FieldText(row, c.id)} else {})
  {
    assert (data + [row])[..|data|] == data;
  }

  /** existingRows.forEach: collect the non-blank ids. */
  method ReadKnownIds(data: seq<Row>, c: KnownCols) returns (known: set<string>)
    ensures known == KnownIdSet(data, c)
  {
    known := {};
    var i := 0;
    while i < |data|
      invariant 0 <= i <= |data|
      invariant known == KnownIdSet(data[..i], c)
    {
      assert data[..i + 1][..i] == data[..i];
      var id := FieldText(data[i], c.id);
      if id != "" {
        known := known + {id};
      }
      i := i + 1;
    }
    assert data[..i] == data;
  }

  // --------------------------------------------------------- one upsert

  /** cleanEntry: the aggregate's id and field values. */
  function StudentFor(e: Aggregate): Student {
    Student(e.studentId, "", e.firstName.value, e.lastName.value, e.school.value, e.email.value, e.grade.value)
  }

  /** The upsert options: the latest stamp with updateLastSignIn, or no
      timestamp and updateLastSignIn off; CreatedAt is the current time. */
  function OptionsFor(e: Aggregate, now: Cell): (o: UpsertOptions)
    ensures StampsSignIn(o) <==> e.lastSignIn.Some?
    ensures o.createdAt == now
  {
    if e.lastSignIn.Some? then UpsertOptions(Some(e.lastSignIn.value), true, now)
    else UpsertOptions(None, false, now)
  }

  /** The row the upsert appends for a student the tab does not know. */
  function RowFor(st: Agg, id: string, c: KnownCols, width: nat, now: Cell): Row {
    var e := EntryOr(st, id);
    NewKnownRow(RowWidth(width), c, FieldsOf(StudentFor(e)), OptionsFor(e, now))
  }

  /** The loop state: the tab's data rows, knownIds, the counters, and
      whether an upsert threw. */
  datatype Written = Written(data: seq<Row>, known: set<string>, added: nat, skipped: nat, failed: bool)

  function Begin(data: seq<Row>, c: KnownCols): Written {
    Written(data, KnownIdSet(data, c), 0, 0, false)
  }

  /** One pass of ids.forEach; a throw ends the loop. */
  function WriteStep(w: Written, id: string, st: Agg, c: KnownCols, width: nat, now: Cell): Written {
    if w.failed then w
    else if id in w.known then w.(skipped := w.skipped + 1)
    else Upsertion(w, id, EntryOr(st, id), c, width, now)
  }

  /** signinUpsertKnownStudent(cleanEntry, options) for an id not yet
      known, and the counters after it; a blank id throws. */
  function Upsertion(w: Written, id: string, e: Aggregate, c: KnownCols, width: nat, now: Cell): Written {
    var student := StudentFor(e);
    if StudentKey(student) == "" then w.(failed := true)
    else
      var f := FieldsOf(student);
      var data := Upserted(w.data, c, f, OptionsFor(e, now), width);
      if UpsertOutcome(w.data, c, f.id).created then Written(data, w.known + {id}, w.added + 1, w.skipped, false)
      else Written(data, w.known, w.added, w.skipped + 1, false)
  }

  function WriteAll(w: Written, ids: seq<string>, st: Agg, c: KnownCols, width: nat, now: Cell): Written {
    if ids == [] then w
    else WriteStep(WriteAll(w, ids[..|ids| - 1], st, c, width, now), ids[|ids| - 1], st, c, width, now)
  }

  // -------------------------------------------------------------- lemmas

  /** The ids an aggregate hands over: non-blank, trimmed, and the key of
      an entry under that very id. */
  ghost predicate Keyed(st: Agg, id: string) {
    id != "" && NoEdgeSpace(id) && id in st.entries && st.entries[id].studentId == id
  }

  /** The set the loop keeps matches the rows of the tab. */
  predicate Tracks(w: Written, c: KnownCols) {
    w.known == KnownIdSet(w.data, c)
  }

  /** The rows appended for ids the tab did not know before, in the order
      of the ids, each id once. */
  function Appended(ids: seq<string>, known: set<string>, st: Agg, c: KnownCols, width: nat, now: Cell): seq<Row> {
    if ids == [] then []
    else
      var init := ids[..|ids| - 1];
      var id := ids[|ids| - 1];
      Appended(init, known, st, c, width, now)
        + (if id in known || id in init then [] else [RowFor(st, id, c, width, now)])
  }

  /** What one pass does for a trimmed aggregate id on a tracked tab: an
      id already known is skipped; a new one is appended as a fresh row
      and joins the set. */
  lemma StepTracks(w: Written, id: string, st: Agg, c: KnownCols, width: nat, now: Cell)
    requires Tracks(w, c) && !w.failed && Keyed(st, id)
    requires KnownDistinct(c) && KnownFits(c, width) && c.id.Some?
    ensures var w1 := WriteStep(w, id, st, c, width, now);
            Tracks(w1, c) && !w1.failed
            && w1.known == w.known + {id}
            && w1.data == w.data + (if id in w.known then [] else [RowFor(st, id, c, width, now)])
            && w1.added + w1.skipped == w.added + w.skipped + 1
            && w1.added == w.added + (if id in w.known then 0 else 1)
            && |w1.known| == |w.known| + (if id in w.known then 0 else 1)
  {
    if id !in w.known {
      AddOne(w.known, id);
      var e := EntryOr(st, id);
      TrimOfTrimmed(id);
      var f := FieldsOf(StudentFor(e));
      assert f.id == id;
      UnknownHasNoRow(w.data, c, id);
      var row := RowFor(st, id, c, width, now);
      NewRowHasId(RowWidth(width), c, f, OptionsFor(e, now));
      KnownIdSetSnoc(w.data, c, row);
    }
  }

  lemma AppendedSnoc(ids: seq<string>, id: string, known: set<string>, st: Agg, c: KnownCols, width: nat, now: Cell)
    ensures Appended(ids + [id], known, st, c, width, now)
            == Appended(ids, known, st, c, width, now)
               + (if id in known || id in ids then [] else [RowFor(st, id, c, width, now)])
  {
    assert (ids + [id])[..|ids|] == ids;
  }

  lemma AddOne(s: set<string>, x: string)
    requires x !in s
    ensures |s + {x}| == |s| + 1
  {
  }

  /** Where the loop stands after a prefix of the ids. */
  ghost predicate Progress(w0: Written, ids: seq<string>, st: Agg, c: KnownCols, width: nat, now: Cell, w: Written) {
    Tracks(w, c) && !w.failed
    && (forall x :: x in w.known <==> x in w0.known || x in ids)
    && w.data == w0.data + Appended(ids, w0.known, st, c, width, now)
    && w.added + w.skipped == w0.added + w0.skipped + |ids|
    && |w.known| + w0.added == |w0.known| + w.added
  }

  /** One step keeps the progress predicate, given what StepTracks says
      about the state after it. */
  lemma ProgressSnoc(w0: Written, ids: seq<string>, id: string, st: Agg, c: KnownCols, width: nat, now: Cell,
                     w: Written, w1: Written)
    requires Progress(w0, ids, st, c, width, now, w)
    requires Tracks(w1, c) && !w1.failed && w1.known == w.known + {id}
    requires w1.data == w.data + (if id in w.known then [] else [RowFor(st, id, c, width, now)])
    requires w1.added + w1.skipped == w.added + w.skipped + 1
    requires w1.added == w.added + (if id in w.known then 0 else 1)
    requires |w1.known| == |w.known| + (if id in w.known then 0 else 1)
    ensures Progress(w0, ids + [id], st, c, width, now, w1)
  {
    var tail := if id in w.known then [] else [RowFor(st, id, c, width, now)];
    AppendedSnoc(ids, id, w0.known, st, c, width, now);
    assert id in w.known <==> id in w0.known || id in ids;
    assert w0.data + Appended(ids, w0.known, st, c, width, now) + tail
           == w0.data + (Appended(ids, w0.known, st, c, width, now) + tail);
    forall x
      ensures x in w1.known <==> x in w0.known || x in ids + [id]
    {
      assert x in ids + [id] <==> x in ids || x == id;
    }
  }

  lemma WriteAllSnoc(w: Written, ids: seq<string>, i: nat, st: Agg, c: KnownCols, width: nat, now: Cell)
    requires i < |ids|
    ensures WriteAll(w, ids[..i + 1], st, c, width, now) == WriteStep(WriteAll(w, ids[..i], st, c, width, now), ids[i], st, c, width, now)
  {
    assert ids[..i + 1][..i] == ids[..i];
  }

  /** The bootstrap loop over ids on a tab whose knownIds came from its
      rows: nothing throws, every id ends up known, the existing rows are
      untouched and exactly one row is appended per id that was new, in
      the ids' order; added plus skippedExisting is the number of ids, and
      the final set grew by exactly the rows added. */
  lemma {:induction false} WriteAllMeaning(w0: Written, ids: seq<string>, st: Agg, c: KnownCols, width: nat, now: Cell)
    requires Tracks(w0, c) && !w0.failed
    requires forall k :: 0 <= k < |ids| ==> Keyed(st, ids[k])
    requires KnownDistinct(c) && KnownFits(c, width) && c.id.Some?
    ensures Progress(w0, ids, st, c, width, now, WriteAll(w0, ids, st, c, width, now))
    decreases |ids|
  {
    if ids != [] {
      var init := ids[..|ids| - 1];
      var id := ids[|ids| - 1];
      assert ids == init + [id];
      WriteAllMeaning(w0, init, st, c, width, now);
      var w := WriteAll(w0, init, st, c, width, now);
      StepTracks(w, id, st, c, width, now);
      ProgressSnoc(w0, init, id, st, c, width, now, w, WriteStep(w, id, st, c, width, now));
    }
  }

  // ---------------------------------------------------------- the whole

  /** The summary object. */
  datatype Summary = Summary(ok: bool, added: nat, skippedExisting: nat, sources: map<Source, Bucket>,
                             totalKnown: nat, collected: nat)

  /** Array.from(aggregates.keys()).sort(). */
  function SortedIds(st: Agg): seq<string> {
    SortBy(st.order, StrLe)
  }

  /** The write loop after collecting the batch. */
  function Outcome(data: seq<Row>, c: KnownCols, width: nat, batch: seq<Arrival>, now: Cell): Written {
    var st := MergeAll(Start, batch);
    WriteAll(Begin(data, c), SortedIds(st), st, c, width, now)
  }

  function SummaryOf(w: Written, batch: seq<Arrival>): Result<Summary> {
    var st := MergeAll(Start, batch);
    if w.failed then Err("Student ID is required.")
    else Ok(Summary(true, w.added, w.skipped, st.buckets, |w.known|, |SortedIds(st)|))
  }

  lemma SortedIdsKeyed(batch: seq<Arrival>)
    ensures forall k :: 0 <= k < |SortedIds(MergeAll(Start, batch))| ==>
              Keyed(MergeAll(Start, batch), SortedIds(MergeAll(Start, batch))[k])
  {
    var st := MergeAll(Start, batch);
    MergedKeys(batch);
    SortByElements(st.order, StrLe);
    forall k | 0 <= k < |SortedIds(st)|
      ensures Keyed(st, SortedIds(st)[k])
    {
      assert SortedIds(st)[k] in st.order;
    }
  }

  /** bootstrapKnownStudents never throws, tells the truth about its
      counts and only appends: every collected id is known afterwards, the
      tab's old rows stay as they were, one row per new id follows them in
      sorted id order, added plus skippedExisting is the number of ids
      collected, and totalKnown is the ids known before plus those added. */
  lemma BootstrapMeaning(data: seq<Row>, c: KnownCols, width: nat, batch: seq<Arrival>, now: Cell)
    requires KnownDistinct(c) && KnownFits(c, width) && c.id.Some?
    ensures var st := MergeAll(Start, batch);
            var w := Outcome(data, c, width, batch, now);
            var ids := SortedIds(st);
            SummaryOf(w, batch).Ok?
            && w.known == KnownIdSet(w.data, c)
            && (forall id :: id in w.known <==> id in KnownIdSet(data, c) || id in st.entries)
            && w.data == data + Appended(ids, KnownIdSet(data, c), st, c, width, now)
            && SummaryOf(w, batch).value.added + SummaryOf(w, batch).value.skippedExisting == |st.entries|
            && SummaryOf(w, batch).value.totalKnown == |KnownIdSet(data, c)| + SummaryOf(w, batch).value.added
  {
    var st := MergeAll(Start, batch);
    var ids := SortedIds(st);
    SortedIdsKeyed(batch);
    WriteAllMeaning(Begin(data, c), ids, st, c, width, now);
    MergedKeys(batch);
    SortByElements(st.order, StrLe);
    OrderCount(st);
  }

  /** The order lists every key once, so there are as many ids as keys. */
  lemma OrderCount(st: Agg)
    requires WellOrdered(st)
    ensures |SortedIds(st)| == |st.entries|
  {
    DistinctCount(st.order);
    assert (set x | x in st.order) == st.entries.Keys;
  }

  lemma {:induction false} DistinctCount(s: seq<string>)
    requires forall i, j :: 0 <= i < j < |s| ==> s[i] != s[j]
    ensures |set x | x in s| == |s|
    decreases |s|
  {
    if s != [] {
      var init := s[..|s| - 1];
      DistinctCount(init);
      assert (set x | x in s) == (set x | x in init) + {s[|s| - 1]};
      assert s[|s| - 1] !in init;
    }
  }

  /** bootstrapKnownStudents on the Known Students tab: read its ids,
      collect the three sources, then upsert every new id in sorted order. */
  method BootstrapKnownStudents(sh: Sheet, c: KnownCols, form: Option<seq<Row>>, att: Option<seq<Row>>,
                                log: seq<Row>, lc: Queue.QueueCols, now: Cell) returns (r: Result<Summary>)
    requires sh.Valid() && KnownFits(c, sh.Width()) && c.id.Some?
    modifies sh
    ensures sh.Valid() && sh.header == old(sh.header)
    ensures var w := Outcome(old(sh.data), c, old(sh.Width()), Collected(form, att, log, lc), now);
            sh.data == w.data && r == SummaryOf(w, Collected(form, att, log, lc))
  {
    ghost var batch := Collected(form, att, log, lc);
    var known := ReadKnownIds(sh.data, c);
    var agg := new Aggregator();
    agg.CollectAll(form, att, log, lc);
    var ids := SortBy(agg.order, StrLe);
    var w := WriteIds(sh, c, agg.State(), ids, known, now);
    r := if w.failed then Err("Student ID is required.")
         else Ok(Summary(true, w.added, w.skipped, agg.buckets, |w.known|, |ids|));
  }

  /** ids.forEach over the sorted ids; a throw leaves the rows written so
      far in place. */
  method WriteIds(sh: Sheet, c: KnownCols, st: Agg, ids: seq<string>, known0: set<string>, now: Cell)
    returns (w: Written)
    requires sh.Valid() && KnownFits(c, sh.Width()) && c.id.Some?
    modifies sh
    ensures sh.Valid() && sh.header == old(sh.header)
    ensures w == WriteAll(Written(old(sh.data), known0, 0, 0, false), ids, st, c, old(sh.Width()), now)
    ensures sh.data == w.data
  {
    ghost var w0 := Written(sh.data, known0, 0, 0, false);
    var width := sh.Width();
    var known, added, skipped := known0, 0, 0;
    var i := 0;
    while i < |ids|
      invariant 0 <= i <= |ids|
      invariant sh.Valid() && sh.header == old(sh.header) && sh.Width() == width
      invariant WriteAll(w0, ids[..i], st, c, width, now) == Written(sh.data, known, added, skipped, false)
    {
      WriteAllSnoc(w0, ids, i, st, c, width, now);
      var failed;
      known, added, skipped, failed := UpsertNew(sh, c, st, ids[i], now, known, added, skipped);
      if failed {
        WriteAllFailed(w0, ids, i + 1, st, c, width, now);
        return Written(sh.data, known, added, skipped, true);
      }
      i := i + 1;
    }
    assert ids[..i] == ids;
    w := Written(sh.data, known, added, skipped, false);
  }

  /** One pass of ids.forEach: skip a known id, otherwise upsert the
      aggregate and count the outcome; `failed` reports the throw. */
  method UpsertNew(sh: Sheet, c: KnownCols, st: Agg, id: string, now: Cell, known: set<string>, added: nat, skipped: nat)
    returns (known': set<string>, added': nat, skipped': nat, failed: bool)
    requires sh.Valid() && KnownFits(c, sh.Width()) && c.id.Some?
    modifies sh
    ensures sh.Valid() && sh.header == old(sh.header)
    ensures WriteStep(Written(old(sh.data), known, added, skipped, false), id, st, c, old(sh.Width()), now)
            == Written(sh.data, known', added', skipped', failed)
  {
    if id in known {
      return known, added, skipped + 1, false;
    }
    known', added', skipped', failed := UpsertEntry(sh, c, id, EntryOr(st, id), now, known, added, skipped);
  }

  method UpsertEntry(sh: Sheet, c: KnownCols, id: string, e: Aggregate, now: Cell, known: set<string>, added: nat, skipped: nat)
    returns (known': set<string>, added': nat, skipped': nat, failed: bool)
    requires sh.Valid() && KnownFits(c, sh.Width()) && c.id.Some?
    modifies sh
    ensures sh.Valid() && sh.header == old(sh.header)
    ensures Upsertion(Written(old(sh.data), known, added, skipped, false), id, e, c, old(sh.Width()), now)
            == Written(sh.data, known', added', skipped', failed)
  {
    known', added', skipped', failed := known, added, skipped, false;
    var res := UpsertKnownStudent(sh, c, StudentFor(e), OptionsFor(e, now));
    match res {
      case Err(_) =>
        failed := true;
      case Ok(u) =>
        if u.created {
          added' := added + 1;
          known' := known + {id};
        } else {
          skipped' := skipped + 1;
        }
    }
  }

  /** After a throw the rest of the ids change nothing. */
  lemma {:induction false} WriteAllFailed(w0: Written, ids: seq<string>, i: nat, st: Agg, c: KnownCols, width: nat, now: Cell)
    requires i <= |ids| && WriteAll(w0, ids[..i], st, c, width, now).failed
    ensures WriteAll(w0, ids, st, c, width, now) == WriteAll(w0, ids[..i], st, c, width, now)
    decreases |ids| - i
  {
    if i < |ids| {
      WriteAllSnoc(w0, ids, i, st, c, width, now);
      WriteAllFailed(w0, ids, i + 1, st, c, width, now);
    } else {
      assert ids[..i] == ids;
    }
  }
}
