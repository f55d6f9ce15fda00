// The collection half of bootstrapKnownStudents (SignInServer.js): the
// submissions tab, the attendance log and the sign-in log are read row by
// row, and every row is merged by mergeAggregate into one aggregate per
// student id. A field keeps the value of the highest-priority source that
// offered a non-blank one (the later one among equals), lastSignIn keeps
// the latest stamp, and every source counts the rows it considered,
// merged and skipped.
module Aggregates {
  import opened Wrappers
  import opened Strings
  import opened Cells
  import opened Utils
  import opened Grades
  import Queue

  // ------------------------------------------------------------ sources

  datatype Source = FormSubmissions | SignInLog | AttendanceLog

  /** SOURCE_PRIORITY: form_2026 2, sign_in_log 1, attendance 0. */
  function Priority(s: Source): nat {
    match s
    case FormSubmissions => 2
    case SignInLog => 1
    case AttendanceLog => 0
  }

  // --------------------------------------------------------------- info

  /** The info object a collector hands to mergeAggregate; a property the
      collector does not set is blank here. The `info.id` fallback of the
      id is never set by a collector and is not modelled. */
  datatype Info = Info(studentId: string, firstName: Cell, lastName: Cell, school: Cell, email: Cell,
                       grade: string, lastSignIn: Option<Instant>)

  /** { studentId: '', firstName: '', lastName: '' } for a row without id. */
  const NoId: Info := Info("", Empty, Empty, Empty, Empty, "", None)

  function InfoId(info: Info): string {
    Trim(info.studentId)
  }

  // ------------------------------------------------------------- fields

  /** A field of an aggregate with its `_priority` stamp (None for
      -Infinity, a field never set). */
  datatype Field = Field(value: string, stamp: Option<nat>)

  const Unset: Field := Field("", None)

  /** setField(field, value) for a source of priority pr: a blank value
      changes nothing; otherwise the value is taken when the field is
      empty or pr is at least the stored stamp. */
  function SetField(f: Field, v: string, pr: nat): Field {
    var val := Trim(v);
    if val == "" then f
    else if f.value == "" || f.stamp.None? || pr >= f.stamp.value then Field(val, Some(pr))
    else f
  }

  datatype FieldName = FirstName | LastName | School | Email | Grade

  /** An entry of the aggregates Map. */
  datatype Aggregate = Aggregate(studentId: string, firstName: Field, lastName: Field, school: Field,
                                 email: Field, grade: Field, lastSignIn: Option<Instant>)

  function Fresh(id: string): Aggregate {
    Aggregate(id, Unset, Unset, Unset, Unset, Unset, None)
  }

  /** entry[field] */
  function FieldAt(a: Aggregate, n: FieldName): Field {
    match n
    case FirstName => a.firstName
    case LastName => a.lastName
    case School => a.school
    case Email => a.email
    case Grade => a.grade
  }

  /** The value setField is called with for a field: the grade goes
      through signinNormalizeGradeLabel_ once more. */
  function Offered(info: Info, n: FieldName): string {
    match n
    case FirstName => StrOr(info.firstName)
    case LastName => StrOr(info.lastName)
    case School => StrOr(info.school)
    case Email => StrOr(info.email)
    case Grade => NormalizeGrade(info.grade)
  }

  /** Date order by time value: day first, then seconds. */
  predicate Earlier(a: Instant, b: Instant) {
    a.date.year < b.date.year
    || (a.date.year == b.date.year
        && (a.date.month < b.date.month
            || (a.date.month == b.date.month
                && (a.date.day < b.date.day || (a.date.day == b.date.day && a.secs < b.secs)))))
  }

  /** `if (!entry.lastSignIn || entry.lastSignIn < stamp) entry.lastSignIn = stamp`. */
  function Latest(cur: Option<Instant>, s: Option<Instant>): Option<Instant> {
    match s
    case None => cur
    case Some(t) => if cur.None? || Earlier(cur.value, t) then s else cur
  }

  /** The five setField calls and the stamp update on one entry. */
  function MergeEntry(e: Aggregate, src: Source, info: Info): Aggregate {
    var pr := Priority(src);
    e.(firstName := SetField(e.firstName, Offered(info, FirstName), pr),
       lastName := SetField(e.lastName, Offered(info, LastName), pr),
       school := SetField(e.school, Offered(info, School), pr),
       email := SetField(e.email, Offered(info, Email), pr),
       grade := SetField(e.grade, Offered(info, Grade), pr),
       lastSignIn := Latest(e.lastSignIn, info.lastSignIn))
  }

  lemma MergeEntryField(e: Aggregate, src: Source, info: Info, n: FieldName)
    ensures FieldAt(MergeEntry(e, src, info), n) == SetField(FieldAt(e, n), Offered(info, n), Priority(src))
  {
  }

  // -------------------------------------------------------------- state

  /** A source's summary bucket. */
  datatype Bucket = Bucket(considered: nat, merged: nat, skipped: nat)

  /** The aggregates Map (its keys in insertion order and its entries) and
      summary.sources. */
  datatype Agg = Agg(order: seq<string>, entries: map<string, Aggregate>, buckets: map<Source, Bucket>)

  const Start: Agg := Agg([], map[], map[])

  /** ensureSourceBucket(source), then the considered count and either the
      skipped or the merged count go up by one. */
  function Tally(b: map<Source, Bucket>, src: Source, blank: bool): map<Source, Bucket> {
    var cur := if src in b then b[src] else Bucket(0, 0, 0);
    b[src := if blank then Bucket(cur.considered + 1, cur.merged, cur.skipped + 1)
             else Bucket(cur.considered + 1, cur.merged + 1, cur.skipped)]
  }

  /** aggregates.get(id), or the fresh entry it would create. */
  function EntryOr(st: Agg, id: string): Aggregate {
    if id in st.entries then st.entries[id] else Fresh(id)
  }

  /** mergeAggregate(source, info). */
  function Step(st: Agg, src: Source, info: Info): Agg {
    var id := InfoId(info);
    var buckets := Tally(st.buckets, src, id == "");
    if id == "" then st.(buckets := buckets)
    else Agg(if id in st.entries then st.order else st.order + [id],
             st.entries[id := MergeEntry(EntryOr(st, id), src, info)], buckets)
  }

  /** One mergeAggregate call. */
  datatype Arrival = Arrival(source: Source, info: Info)

  function MergeAll(st: Agg, batch: seq<Arrival>): Agg {
    if batch == [] then st
    else
      var a := batch[|batch| - 1];
      Step(MergeAll(st, batch[..|batch| - 1]), a.source, a.info)
  }

  /** The arrivals of one collector. */
  function Arrivals(src: Source, infos: seq<Info>): (r: seq<Arrival>)
    ensures |r| == |infos| && forall k :: 0 <= k < |infos| ==> r[k] == Arrival(src, infos[k])
  {
    seq(|infos|, k requires 0 <= k < |infos| => Arrival(src, infos[k]))
  }

  lemma ArrivalsSnoc(src: Source, infos: seq<Info>, i: nat)
    requires i < |infos|
    ensures Arrivals(src, infos[..i + 1]) == Arrivals(src, infos[..i]) + [Arrival(src, infos[i])]
  {
  }

  lemma {:induction false} MergeAllAppend(st: Agg, a: seq<Arrival>, b: seq<Arrival>)
    ensures MergeAll(st, a + b) == MergeAll(MergeAll(st, a), b)
    decreases |b|
  {
    if b == [] {
      assert a + b == a;
    } else {
      MergeAllAppend(st, a, b[..|b| - 1]);
      assert (a + b)[..|a + b| - 1] == a + b[..|b| - 1];
    }
  }

  // ------------------------------------------------------- the priority rule

  /** One setField call for a field: the value and the source priority. */
  datatype Offer = Offer(value: string, pr: nat)

  predicate Given(o: Offer) {
    Trim(o.value) != ""
  }

  function ApplyOffers(os: seq<Offer>): Field {
    if os == [] then Unset
    else SetField(ApplyOffers(os[..|os| - 1]), os[|os| - 1].value, os[|os| - 1].pr)
  }

  /** Offer j carries the highest priority of all non-blank offers, and
      every non-blank offer after it has a lower one. */
  predicate Winner(os: seq<Offer>, j: int) {
    0 <= j < |os| && Given(os[j])
    && (forall i :: 0 <= i < |os| && Given(os[i]) ==> os[i].pr <= os[j].pr)
    && (forall i :: j < i < |os| && Given(os[i]) ==> os[i].pr < os[j].pr)
  }

  /** What PriorityWins states about a field r after the offers os. */
  ghost predicate Follows(os: seq<Offer>, r: Field) {
    (r == Unset <==> forall i :: 0 <= i < |os| ==> !Given(os[i]))
    && (r != Unset ==> exists j :: Winner(os, j) && r == Field(Trim(os[j].value), Some(os[j].pr)))
  }

  lemma FollowsBlank(init: seq<Offer>, o: Offer, r0: Field)
    requires Follows(init, r0) && !Given(o)
    ensures Follows(init + [o], SetField(r0, o.value, o.pr))
  {
    var os := init + [o];
    assert forall i :: 0 <= i < |init| ==> os[i] == init[i];
    if r0 != Unset {
      var j :| Winner(init, j) && r0 == Field(Trim(init[j].value), Some(init[j].pr));
      assert Winner(os, j);
    }
  }

  lemma FollowsFirst(init: seq<Offer>, o: Offer)
    requires Follows(init, Unset) && Given(o)
    ensures Follows(init + [o], SetField(Unset, o.value, o.pr))
  {
    var os := init + [o];
    assert forall i :: 0 <= i < |init| ==> os[i] == init[i];
    assert Winner(os, |init|);
  }

  lemma FollowsGiven(init: seq<Offer>, o: Offer, r0: Field)
    requires Follows(init, r0) && r0 != Unset && Given(o)
    ensures Follows(init + [o], SetField(r0, o.value, o.pr))
  {
    var os := init + [o];
    assert forall i :: 0 <= i < |init| ==> os[i] == init[i];
    var j :| Winner(init, j) && r0 == Field(Trim(init[j].value), Some(init[j].pr));
    if o.pr >= init[j].pr {
      assert Winner(os, |init|);
    } else {
      assert Winner(os, j);
    }
  }

  /** The per-field priority rule: after a run of setField calls the field
      is unset exactly when no call offered a non-blank value; otherwise
      it holds the trimmed value of the last non-blank offer of the highest
      priority, stamped with that priority. A lower-priority offer never
      replaces a higher-priority value, and among equal priorities the
      later offer wins. */
  lemma {:induction false} PriorityWins(os: seq<Offer>)
    ensures ApplyOffers(os) == Unset <==> forall i :: 0 <= i < |os| ==> !Given(os[i])
    ensures ApplyOffers(os) != Unset ==>
              exists j :: Winner(os, j) && ApplyOffers(os) == Field(Trim(os[j].value), Some(os[j].pr))
    decreases |os|
  {
    if os != [] {
      var init := os[..|os| - 1];
      var o := os[|os| - 1];
      assert os == init + [o];
      var r0 := ApplyOffers(init);
      PriorityWins(init);
      assert Follows(init, r0);
      if !Given(o) {
        FollowsBlank(init, o, r0);
      } else if r0 == Unset {
        FollowsFirst(init, o);
      } else {
        FollowsGiven(init, o, r0);
      }
      assert Follows(os, ApplyOffers(os));
    }
  }

  /** A merge from a non-blank id. */
  predicate Carries(a: Arrival, id: string) {
    InfoId(a.info) == id && id != ""
  }

  /** The setField calls a batch makes on one field of one id. */
  function OffersFor(batch: seq<Arrival>, id: string, n: FieldName): seq<Offer> {
    if batch == [] then []
    else
      var a := batch[|batch| - 1];
      var rest := OffersFor(batch[..|batch| - 1], id, n);
      if Carries(a, id) then rest + [Offer(Offered(a.info, n), Priority(a.source))] else rest
  }

  /** Each field of an aggregate is the run of setField calls for it. */
  lemma {:induction false} MergedField(batch: seq<Arrival>, id: string, n: FieldName)
    ensures FieldAt(EntryOr(MergeAll(Start, batch), id), n) == ApplyOffers(OffersFor(batch, id, n))
    decreases |batch|
  {
    if batch != [] {
      var init := batch[..|batch| - 1];
      var a := batch[|batch| - 1];
      MergedField(init, id, n);
      if Carries(a, id) {
        var os := OffersFor(batch, id, n);
        assert os[..|os| - 1] == OffersFor(init, id, n);
        MergeEntryField(EntryOr(MergeAll(Start, init), id), a.source, a.info, n);
      }
    }
  }

  /** The priority rule for the aggregates: each field of a student's
      aggregate follows PriorityWins over that student's merges. */
  lemma MergedFieldWins(batch: seq<Arrival>, id: string, n: FieldName)
    ensures FieldAt(EntryOr(MergeAll(Start, batch), id), n) == Unset <==>
              forall i :: 0 <= i < |OffersFor(batch, id, n)| ==> !Given(OffersFor(batch, id, n)[i])
    ensures FieldAt(EntryOr(MergeAll(Start, batch), id), n) != Unset ==>
              exists j :: Winner(OffersFor(batch, id, n), j)
                          && FieldAt(EntryOr(MergeAll(Start, batch), id), n)
                             == Field(Trim(OffersFor(batch, id, n)[j].value), Some(OffersFor(batch, id, n)[j].pr))
  {
    MergedField(batch, id, n);
    PriorityWins(OffersFor(batch, id, n));
  }

  // ---------------------------------------------------------- lastSignIn

  function LastSignInOf(batch: seq<Arrival>, id: string): Option<Instant> {
    EntryOr(MergeAll(Start, batch), id).lastSignIn
  }

  predicate Stamped(a: Arrival, id: string) {
    Carries(a, id) && a.info.lastSignIn.Some?
  }

  lemma EarlierTrans(a: Instant, b: Instant, c: Instant)
    requires Earlier(a, b) && Earlier(b, c)
    ensures Earlier(a, c)
  {
  }

  /** What LastSignInIsLatest states about r after the batch. */
  ghost predicate LatestOf(batch: seq<Arrival>, id: string, r: Option<Instant>) {
    (r.None? <==> forall k :: 0 <= k < |batch| ==> !Stamped(batch[k], id))
    && (r.Some? ==> exists k :: 0 <= k < |batch| && Stamped(batch[k], id) && batch[k].info.lastSignIn == r)
    && (forall k :: 0 <= k < |batch| && Stamped(batch[k], id) ==> !Earlier(r.value, batch[k].info.lastSignIn.value))
  }

  /** One merge changes a student's stamp only when it carries the id. */
  lemma StepTouches(st: Agg, a: Arrival, id: string)
    ensures EntryOr(Step(st, a.source, a.info), id)
            == if Carries(a, id) then MergeEntry(EntryOr(st, id), a.source, a.info) else EntryOr(st, id)
  {
  }

  lemma MergeAllSnoc(st: Agg, batch: seq<Arrival>, a: Arrival)
    ensures MergeAll(st, batch + [a]) == Step(MergeAll(st, batch), a.source, a.info)
  {
    assert (batch + [a])[..|batch|] == batch;
  }

  lemma LatestStep(init: seq<Arrival>, a: Arrival, id: string, r0: Option<Instant>)
    requires LatestOf(init, id, r0)
    ensures LatestOf(init + [a], id, if Carries(a, id) then Latest(r0, a.info.lastSignIn) else r0)
  {
    var batch := init + [a];
    assert forall k :: 0 <= k < |init| ==> batch[k] == init[k];
    var r := if Carries(a, id) then Latest(r0, a.info.lastSignIn) else r0;
    if Stamped(a, id) && (r0.None? || Earlier(r0.value, a.info.lastSignIn.value)) {
      assert r == a.info.lastSignIn;
      forall k | 0 <= k < |batch| && Stamped(batch[k], id)
        ensures !Earlier(r.value, batch[k].info.lastSignIn.value)
      {
        if k < |init| && Earlier(r.value, batch[k].info.lastSignIn.value) {
          EarlierTrans(r0.value, r.value, batch[k].info.lastSignIn.value);
        }
      }
      assert Stamped(batch[|init|], id);
    } else {
      assert r == r0;
    }
  }

  /** lastSignIn is the latest stamp among the student's merges, and none
      when no merge carried one. */
  lemma {:induction false} LastSignInIsLatest(batch: seq<Arrival>, id: string)
    ensures LastSignInOf(batch, id).None? <==> forall k :: 0 <= k < |batch| ==> !Stamped(batch[k], id)
    ensures LastSignInOf(batch, id).Some? ==>
              exists k :: 0 <= k < |batch| && Stamped(batch[k], id) && batch[k].info.lastSignIn == LastSignInOf(batch, id)
    ensures forall k :: 0 <= k < |batch| && Stamped(batch[k], id) ==>
              !Earlier(LastSignInOf(batch, id).value, batch[k].info.lastSignIn.value)
    decreases |batch|
  {
    if batch != [] {
      var init := batch[..|batch| - 1];
      var a := batch[|batch| - 1];
      assert batch == init + [a];
      LastSignInIsLatest(init, id);
      assert LatestOf(init, id, LastSignInOf(init, id));
      StepTouches(MergeAll(Start, init), a, id);
      LatestStep(init, a, id, LastSignInOf(init, id));
      assert LatestOf(batch, id, LastSignInOf(batch, id));
    }
  }

  // -------------------------------------------------------------- keys

  /** Map keys listed once each, in insertion order; every entry sits
      under its own non-blank, trimmed id. */
  ghost predicate WellOrdered(st: Agg) {
    (forall i, j :: 0 <= i < j < |st.order| ==> st.order[i] != st.order[j])
    && (forall k :: k in st.entries <==> k in st.order)
    && (forall k :: k in st.entries ==> st.entries[k].studentId == k && k != "" && NoEdgeSpace(k))
  }

  lemma StepOrdered(st: Agg, src: Source, info: Info)
    requires WellOrdered(st)
    ensures WellOrdered(Step(st, src, info))
  {
    var id := InfoId(info);
    if id != "" && id !in st.entries {
      var st1 := Step(st, src, info);
      forall i, j | 0 <= i < j < |st1.order|
        ensures st1.order[i] != st1.order[j]
      {
        if j == |st.order| {
          assert st.order[i] in st.entries;
        }
      }
    }
  }

  lemma StepKeys(st: Agg, a: Arrival, id: string)
    ensures id in Step(st, a.source, a.info).entries <==> id in st.entries || Carries(a, id)
  {
  }

  /** Some merge of the batch carries the id. */
  ghost predicate Carried(batch: seq<Arrival>, id: string) {
    exists k :: 0 <= k < |batch| && Carries(batch[k], id)
  }

  lemma CarriedSnoc(init: seq<Arrival>, a: Arrival, id: string)
    ensures Carried(init + [a], id) <==> Carried(init, id) || Carries(a, id)
  {
    var batch := init + [a];
    if Carried(init, id) {
      var k :| 0 <= k < |init| && Carries(init[k], id);
      assert batch[k] == init[k];
    }
    if Carried(batch, id) {
      var k :| 0 <= k < |batch| && Carries(batch[k], id);
      if k < |init| {
        assert init[k] == batch[k];
      }
    }
    assert batch[|init|] == a;
  }

  /** The aggregates are keyed by the non-blank ids of the merges, each
      listed once. */
  lemma {:induction false} MergedKeys(batch: seq<Arrival>)
    ensures WellOrdered(MergeAll(Start, batch))
    ensures forall id :: id in MergeAll(Start, batch).entries <==> Carried(batch, id)
    decreases |batch|
  {
    if batch != [] {
      var init := batch[..|batch| - 1];
      var a := batch[|batch| - 1];
      assert batch == init + [a];
      MergedKeys(init);
      StepOrdered(MergeAll(Start, init), a.source, a.info);
      forall id
        ensures id in MergeAll(Start, batch).entries <==> Carried(batch, id)
      {
        StepKeys(MergeAll(Start, init), a, id);
        CarriedSnoc(init, a, id);
      }
    }
  }

  // ------------------------------------------------------------ buckets

  function CountFrom(batch: seq<Arrival>, s: Source): nat {
    if batch == [] then 0
    else CountFrom(batch[..|batch| - 1], s) + (if batch[|batch| - 1].source == s then 1 else 0)
  }

  function CountBlank(batch: seq<Arrival>, s: Source): (r: nat)
    ensures r <= CountFrom(batch, s)
  {
    if batch == [] then 0
    else
      var a := batch[|batch| - 1];
      CountBlank(batch[..|batch| - 1], s) + (if a.source == s && InfoId(a.info) == "" then 1 else 0)
  }

  lemma StepBuckets(st: Agg, a: Arrival)
    ensures Step(st, a.source, a.info).buckets == Tally(st.buckets, a.source, InfoId(a.info) == "")
  {
  }

  /** A source has a bucket once it merged a row; its counts are the rows
      it handed over, those without an id (skipped) and the rest (merged). */
  lemma {:induction false} BucketCounts(batch: seq<Arrival>, s: Source)
    ensures s in MergeAll(Start, batch).buckets <==> CountFrom(batch, s) > 0
    ensures s in MergeAll(Start, batch).buckets ==>
              MergeAll(Start, batch).buckets[s]
              == Bucket(CountFrom(batch, s), CountFrom(batch, s) - CountBlank(batch, s), CountBlank(batch, s))
    decreases |batch|
  {
    if batch != [] {
      var init := batch[..|batch| - 1];
      BucketCounts(init, s);
      StepBuckets(MergeAll(Start, init), batch[|batch| - 1]);
    }
  }

  // --------------------------------------------------------- collectors

  /** signinNormalizeDate_(v): a date as it is, else parseLooseDate_ at
      midnight, else null. */
  function NormalizeDate(c: Cell): (r: Option<Instant>)
    ensures c.When? ==> r.Some? && r.value == c
    ensures !c.When? ==> (r.None? <==> ParseLooseDate(c).None?)
  {
    if c.When? then var i: Instant := c; Some(i)
    else match ParseLooseDate(c)
      case Some(d) => var i: Instant := When(d, 0); Some(i)
      case None => None
  }

  // Column indices of CONFIG.FORM.COLS and CONFIG.ATTENDANCE.COLS.
  const FormEmail: nat := 1
  const FormLast: nat := 2
  const FormFirst: nat := 3
  const FormEmails: nat := 13
  const FormGradeAtIntake: nat := 17
  const FormGradeNow: nat := 18
  const FormSchool: nat := 19
  const FormCpsId: nat := 20
  const AttTimestamp: nat := 0
  const AttFirst: nat := 1
  const AttLast: nat := 2
  const AttSchoolYear: nat := 4
  const AttSchool: nat := 5
  const AttId: nat := 6

  /** collectFormSheet's info for one submissions row: the first e-mail of
      the primary or alternative e-mail cell, and the current grade or
      else the intake grade. */
  function FormInfo(row: Row): (info: Info)
    ensures InfoId(info) == CellText(At(row, FormCpsId))
  {
    var id := CellText(At(row, FormCpsId));
    if id == "" then NoId
    else
      var primary := At(row, FormEmail);
      var emails := StrOr(if Truthy(primary) then primary else At(row, FormEmails));
      var now := NormalizeGrade(StrOr(At(row, FormGradeNow)));
      var intake := NormalizeGrade(StrOr(At(row, FormGradeAtIntake)));
      TrimOfTrimmed(id);
      Info(id, At(row, FormFirst), At(row, FormLast), At(row, FormSchool),
           Text(Pieces(emails, {';', ','})[0]), if now != "" then now else intake, None)
  }

  /** collectAttendance's info for one attendance row. */
  function AttendanceInfo(row: Row): (info: Info)
    ensures InfoId(info) == CellText(At(row, AttId))
  {
    var id := CellText(At(row, AttId));
    if id == "" then NoId
    else
      TrimOfTrimmed(id);
      Info(id, At(row, AttFirst), At(row, AttLast), At(row, AttSchool), Empty,
           NormalizeGrade(StrOr(At(row, AttSchoolYear))), NormalizeDate(At(row, AttTimestamp)))
  }

  /** collectSignInLog's info for one sign-in log row: the name is split
      into first word and rest. */
  function LogInfo(row: Row, c: Queue.QueueCols): (info: Info)
    ensures InfoId(info) == FieldText(row, c.id)
  {
    var id := FieldText(row, c.id);
    if id == "" then NoId
    else
      var (first, last) := SplitName(FieldText(row, c.name));
      TrimOfTrimmed(id);
      Info(id, Text(first), Text(last), Get(row, c.school), Empty, "", NormalizeDate(Get(row, c.timestamp)))
  }

  function FormInfos(rows: seq<Row>): (r: seq<Info>)
    ensures |r| == |rows| && forall k :: 0 <= k < |rows| ==> r[k] == FormInfo(rows[k])
  {
    seq(|rows|, k requires 0 <= k < |rows| => FormInfo(rows[k]))
  }

  function AttendanceInfos(rows: seq<Row>): (r: seq<Info>)
    ensures |r| == |rows| && forall k :: 0 <= k < |rows| ==> r[k] == AttendanceInfo(rows[k])
  {
    seq(|rows|, k requires 0 <= k < |rows| => AttendanceInfo(rows[k]))
  }

  function LogInfos(rows: seq<Row>, c: Queue.QueueCols): (r: seq<Info>)
    ensures |r| == |rows| && forall k :: 0 <= k < |rows| ==> r[k] == LogInfo(rows[k], c)
  {
    seq(|rows|, k requires 0 <= k < |rows| => LogInfo(rows[k], c))
  }

  /** An absent tab contributes nothing. */
  function TabRows(tab: Option<seq<Row>>): seq<Row> {
    match tab
    case Some(rows) => rows
    case None => []
  }

  /** All merges of a bootstrap run: the submissions tab, then the
      attendance log, then the sign-in log. */
  function Collected(form: Option<seq<Row>>, att: Option<seq<Row>>, log: seq<Row>, lc: Queue.QueueCols): seq<Arrival> {
    Arrivals(FormSubmissions, FormInfos(TabRows(form)))
    + Arrivals(AttendanceLog, AttendanceInfos(TabRows(att)))
    + Arrivals(SignInLog, LogInfos(log, lc))
  }

  /** Every row a collector reads is considered once by its source's
      bucket, and a row is skipped exactly when its id cell is blank. */
  lemma {:induction false} ArrivalsCount(src: Source, infos: seq<Info>, s: Source)
    ensures CountFrom(Arrivals(src, infos), s) == if s == src then |infos| else 0
    decreases |infos|
  {
    if infos != [] {
      var init := infos[..|infos| - 1];
      assert Arrivals(src, infos)[..|infos| - 1] == Arrivals(src, init);
      ArrivalsCount(src, init, s);
    }
  }

  // -------------------------------------------------------------- class

  /** The aggregates Map and summary.sources of one bootstrap run. */
  class Aggregator {
    var order: seq<string>
    var entries: map<string, Aggregate>
    var buckets: map<Source, Bucket>

    function State(): Agg
      reads this
    {
      Agg(order, entries, buckets)
    }

    constructor ()
      ensures State() == Start
    {
      order := [];
      entries := map[];
      buckets := map[];
    }

    /** mergeAggregate(source, info). */
    method MergeAggregate(src: Source, info: Info)
      modifies this
      ensures State() == Step(old(State()), src, info)
    {
      var id := InfoId(info);
      buckets := Tally(buckets, src, id == "");
      if id == "" {
        return;
      }
      var entry := if id in entries then entries[id] else Fresh(id);
      if id !in entries {
        order := order + [id];
      }
      entries := entries[id := MergeEntry(entry, src, info)];
    }

    /** A collector's loop: one mergeAggregate call per row, in order. */
    method MergeEach(src: Source, infos: seq<Info>)
      modifies this
      ensures State() == MergeAll(old(State()), Arrivals(src, infos))
    {
      ghost var st0 := State();
      var i := 0;
      while i < |infos|
        invariant 0 <= i <= |infos|
        invariant State() == MergeAll(st0, Arrivals(src, infos[..i]))
      {
        ArrivalsSnoc(src, infos, i);
        MergeAllSnoc(st0, Arrivals(src, infos[..i]), Arrival(src, infos[i]));
        MergeAggregate(src, infos[i]);
        i := i + 1;
      }
      assert infos[..i] == infos;
    }

    /** collectFormSheet(SUBMISSIONS_SHEET, 'form_2026'), collectAttendance()
        and collectSignInLog(), in that order; a missing tab is passed as
        None. */
    method CollectAll(form: Option<seq<Row>>, att: Option<seq<Row>>, log: seq<Row>, lc: Queue.QueueCols)
      modifies this
      ensures State() == MergeAll(old(State()), Collected(form, att, log, lc))
    {
      ghost var st0 := State();
      var a := Arrivals(FormSubmissions, FormInfos(TabRows(form)));
      var b := Arrivals(AttendanceLog, AttendanceInfos(TabRows(att)));
      var c := Arrivals(SignInLog, LogInfos(log, lc));
      MergeEach(FormSubmissions, FormInfos(TabRows(form)));
      MergeEach(AttendanceLog, AttendanceInfos(TabRows(att)));
      MergeEach(SignInLog, LogInfos(log, lc));
      MergeAllAppend(st0, a, b);
      MergeAllAppend(st0, a + b, c);
    }
  }
}
