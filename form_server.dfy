// The intake form's server side (FormServer.js): suggestPeople searches
// last year's data tab ("2025") by ID or name, lookupById fetches one
// person's record by CPS ID unless they already appear on this year's
// submissions tab ("2026"), and submitForm appends one submission row with
// the intake date and the age computed from the birth date.
module FormServer {
  import opened Wrappers
  import opened Strings
  import opened Cells
  import opened Utils
  import opened Sorting
  import opened Scan
  import opened Grades
  import opened Suggest

  const DataSheet: string := "2025"
  const SubmissionsSheet: string := "2026"

  /** CONFIG.FORM.COLS: the record field stored in each column, in column
      order (column k holds field FieldNames[k]). */
  const FieldNames: seq<string> := [
    "timestamp", "emailAddress", "lastName", "firstName", "intakeDate", "participantStatus",
    "joinedProgramYear", "birthDate", "gender", "address", "zipCode", "participantPhone",
    "parentPhone", "participantEmails", "race", "spanishOnly", "ageAtIntake", "gradeAtIntake",
    "currentGradeLevel", "school", "cpsIdNumber", "familyType", "householdSize", "siblingsCount",
    "grandparentsInHouse", "housingStatus", "incomeSource", "yearlyIncome", "publicAssistance",
    "healthInsurance", "everWorked", "workingNow", "hasIEP", "has504", "medicalIssues",
    "relationshipStatus", "grades", "attendance", "punctuality", "involvementTeachers",
    "involvementStaff", "extracurricular", "comments"]

  const FieldCount: nat := 43
  const ColTimestamp: nat := 0
  const ColLastName: nat := 2
  const ColFirstName: nat := 3
  const ColIntakeDate: nat := 4
  const ColBirthDate: nat := 7
  const ColAge: nat := 16
  const ColGradeLevel: nat := 18
  const ColSchool: nat := 19
  const ColCpsId: nat := 20

  function MissingTab(name: string): string {
    "Missing tab: " + name
  }

  /** The data rows of a tab, or None when the tab is missing. */
  function RowsOf(sh: Sheet?): Option<seq<Row>>
    reads sh
  {
    if sh == null then None else Some(sh.data)
  }

  // ------------------------------------------------------------- suggest

  /** One row of the data tab as a search candidate; each field is the
      cell's text (r[C.x] || ''). */
  datatype Person = Person(rowIndex: nat, firstName: string, lastName: string, id: string,
                           school: string, grade: string)

  /** The person of data row i (sheet row i + 2). */
  function PersonOf(row: Row, i: nat): (p: Person)
    ensures p.rowIndex == i + 2
  {
    Person(i + 2, StrOr(At(row, ColFirstName)), StrOr(At(row, ColLastName)), StrOr(At(row, ColCpsId)),
           StrOr(At(row, ColSchool)), StrOr(At(row, ColGradeLevel)))
  }

  /** `${first} ${last}`.trim() */
  function FullName(p: Person): string {
    Trim(p.firstName + " " + p.lastName)
  }

  /** `${full}${id ? ' - ' + id : ''} (${school} - ${grade})` */
  function Label(p: Person): string {
    FullName(p) + (if p.id != "" then " - " + p.id else "") + " (" + p.school + " - " + p.grade + ")"
  }

  /** The normalised fields a token is compared with. */
  function SearchFields(p: Person): seq<string> {
    [Norm(p.id), Norm(p.firstName), Norm(p.lastName), Norm(FullName(p)), Norm(p.school), Norm(p.grade)]
  }

  /** +5 exact, +4 prefix, +2 substring. */
  const FormWeights: Weights := Weights(5, 4, 2)

  function CandidateAt(row: Row, i: nat, q: string): (c: Scored<Person>)
    ensures c.item == PersonOf(row, i)
  {
    var p := PersonOf(row, i);
    Scored(p, Score(Words(q), SearchFields(p), FormWeights))
  }

  function Candidates(data: seq<Row>, q: string): (r: seq<Scored<Person>>)
    ensures |r| == |data| && forall i :: 0 <= i < |data| ==> r[i] == CandidateAt(data[i], i, q)
  {
    seq(|data|, i requires 0 <= i < |data| => CandidateAt(data[i], i, q))
  }

  /** b.s - a.s || a.lastName.localeCompare(b.lastName), read as a
      `cmp(a, b) <= 0` test, with code-unit order for localeCompare. */
  function ByLastName(): (Person, Person) -> bool {
    (a: Person, b: Person) => StrLe(a.lastName, b.lastName)
  }

  function FormOrder(): (Scored<Person>, Scored<Person>) -> bool {
    ScoreThen(ByLastName())
  }

  lemma FormOrderTotal()
    ensures TotalPreorder(FormOrder())
  {
    var le := ByLastName();
    forall a: Person, b: Person, c: Person | le(a, b) && le(b, c)
      ensures le(a, c)
    {
      StrLeTrans(a.lastName, b.lastName, c.lastName);
    }
    forall a: Person, b: Person
      ensures le(a, b) || le(b, a)
    {
      StrLeTotal(a.lastName, b.lastName);
    }
    ScoreThenTotal(le);
  }

  /** The kept candidates, best first. */
  function Ranked(data: seq<Row>, q: string, n: nat): seq<Scored<Person>> {
    Rank(Candidates(data, q), FormOrder(), n)
  }

  /** One suggestion: value is the id, or the label when the id is blank. */
  datatype Suggestion = Suggestion(labelText: string, value: string, firstName: string, lastName: string,
                                   id: string, school: string, grade: string, rowIndex: nat)

  function SuggestionOf(p: Person): (s: Suggestion)
    ensures s.value == if p.id != "" then p.id else Label(p)
    ensures s.id == p.id && s.rowIndex == p.rowIndex
  {
    Suggestion(Label(p), if p.id != "" then p.id else Label(p), p.firstName, p.lastName,
               p.id, p.school, p.grade, p.rowIndex)
  }

  /** suggestPeople(query, limit) over the data tab's rows (None when the
      tab is missing). A blank normalised query gives [] without reading
      the tab; otherwise at most `Limit(limit)` suggestions. */
  function SuggestPeople(data: Option<seq<Row>>, query: Cell, limit: Cell): (r: Result<seq<Suggestion>>)
    ensures Norm(StrOr(query)) == "" ==> r == Ok([])
    ensures Norm(StrOr(query)) != "" && data.None? ==> r == Err(MissingTab(DataSheet))
    ensures r.Ok? ==> |r.value| <= Limit(limit) <= 20
  {
    var q := Norm(StrOr(query));
    if q == "" then Ok([])
    else if data.None? then Err(MissingTab(DataSheet))
    else
      var ranked := Ranked(data.value, q, Limit(limit));
      Ok(seq(|ranked|, k requires 0 <= k < |ranked| => SuggestionOf(ranked[k].item)))
  }

  /** A candidate has points exactly when some query word occurs in one of
      its normalised fields. */
  lemma CandidateScore(row: Row, i: nat, q: string)
    ensures CandidateAt(row, i, q).score > 0 <==> AnyHit(Words(q), SearchFields(PersonOf(row, i)))
  {
    ScorePositive(Words(q), SearchFields(PersonOf(row, i)), FormWeights);
  }

  /** The ranking is a sorted selection of the candidates, in the
      comparator's total order. */
  lemma RankedFacts(data: seq<Row>, q: string, n: nat)
    ensures TotalPreorder(FormOrder())
    ensures |Ranked(data, q, n)| <= n
    ensures SortedBy(Ranked(data, q, n), FormOrder())
    ensures forall x :: x in Ranked(data, q, n) ==> x in Candidates(data, q) && x.score > 0
    ensures forall x :: x in Candidates(data, q) && x.score > 0 && x !in Ranked(data, q, n) ==>
              |Ranked(data, q, n)| == n && forall k :: 0 <= k < n ==> FormOrder()(Ranked(data, q, n)[k], x)
  {
    FormOrderTotal();
    RankMeaning(Candidates(data, q), FormOrder(), n);
  }

  /** At most n suggestions, each a data row with points. */
  lemma RankedSound(data: seq<Row>, q: string, n: nat)
    ensures |Ranked(data, q, n)| <= n
    ensures forall k :: 0 <= k < |Ranked(data, q, n)| ==>
              Ranked(data, q, n)[k].score > 0
              && exists i :: 0 <= i < |data| && Ranked(data, q, n)[k] == CandidateAt(data[i], i, q)
  {
    var xs := Candidates(data, q);
    var r := Ranked(data, q, n);
    RankedFacts(data, q, n);
    forall k | 0 <= k < |r|
      ensures r[k].score > 0 && exists i :: 0 <= i < |data| && r[k] == CandidateAt(data[i], i, q)
    {
      assert r[k] in r;
      var i :| 0 <= i < |xs| && xs[i] == r[k];
    }
  }

  /** Best score first, equal scores by last name. */
  lemma RankedOrder(data: seq<Row>, q: string, n: nat)
    ensures forall k :: 0 <= k < |Ranked(data, q, n)| - 1 ==>
              Ranked(data, q, n)[k].score > Ranked(data, q, n)[k + 1].score
              || (Ranked(data, q, n)[k].score == Ranked(data, q, n)[k + 1].score
                  && StrLe(Ranked(data, q, n)[k].item.lastName, Ranked(data, q, n)[k + 1].item.lastName))
  {
    var r := Ranked(data, q, n);
    RankedFacts(data, q, n);
    forall k | 0 <= k < |r| - 1
      ensures r[k].score > r[k + 1].score || (r[k].score == r[k + 1].score && StrLe(r[k].item.lastName, r[k + 1].item.lastName))
    {
      assert FormOrder()(r[k], r[k + 1]);
    }
  }

  /** A row with points that is left out means n suggestions were kept,
      none with a lower score. */
  lemma RankedComplete(data: seq<Row>, q: string, n: nat, i: nat)
    requires i < |data| && CandidateAt(data[i], i, q).score > 0
    requires CandidateAt(data[i], i, q) !in Ranked(data, q, n)
    ensures |Ranked(data, q, n)| == n
    ensures forall k :: 0 <= k < n ==> Ranked(data, q, n)[k].score >= CandidateAt(data[i], i, q).score
  {
    var x := CandidateAt(data[i], i, q);
    var r := Ranked(data, q, n);
    assert Candidates(data, q)[i] == x;
    RankedFacts(data, q, n);
    forall k | 0 <= k < n
      ensures r[k].score >= x.score
    {
      assert FormOrder()(r[k], x);
    }
  }

  // -------------------------------------------------------------- lookup

  const NoId: string := "No CPS ID Number provided."
  const AlreadyIn: string := "This person is already in 2026."

  function NotFound(id: string): string {
    "CPS ID Number \"" + id + "\" not found."
  }

  /** String(r[C.cpsIdNumber] ?? '').trim() */
  function IdOf(row: Row): string {
    Trim(StrOf(At(row, ColCpsId)))
  }

  function IdIs(id: string): Row -> bool {
    (row: Row) => IdOf(row) == id
  }

  /** _rowToRecord_(r): field FieldNames[k] of the record is column k. */
  datatype FormRecord = FormRecord(values: seq<Cell>)

  function RecordOf(row: Row): (rec: FormRecord)
    ensures |rec.values| == FieldCount
  {
    FormRecord(seq(FieldCount, k requires 0 <= k => At(row, k)))
  }

  /** lookupById(idRaw) with the submissions tab's and the data tab's rows
      (None for a missing tab). */
  function Lookup(sub: Option<seq<Row>>, data: Option<seq<Row>>, idRaw: Cell): Result<FormRecord> {
    var id := Trim(StrOf(idRaw));
    if id == "" then Err(NoId)
    else if sub.Some? && First(sub.value, IdIs(id)).Some? then Err(AlreadyIn)
    else if data.None? then Err(MissingTab(DataSheet))
    else
      match First(data.value, IdIs(id))
      case Some(j) => Ok(RecordOf(data.value[j]))
      case None => Err(NotFound(id))
  }

  /** The two read-only loops of lookupById. */
  method LookupById(sub: Sheet?, dataSh: Sheet?, idRaw: Cell) returns (r: Result<FormRecord>)
    ensures r == Lookup(RowsOf(sub), RowsOf(dataSh), idRaw)
  {
    var id := Trim(StrOf(idRaw));
    if id == "" {
      return Err(NoId);
    }
    if sub != null {
      var hit := FindFirst(sub.data, IdIs(id));
      if hit.Some? {
        return Err(AlreadyIn);
      }
    }
    if dataSh == null {
      return Err(MissingTab(DataSheet));
    }
    var j := FindFirst(dataSh.data, IdIs(id));
    if j.Some? {
      r := Ok(RecordOf(dataSh.data[j.value]));
    } else {
      r := Err(NotFound(id));
    }
  }

  /** The three messages of an unsuccessful lookup differ. */
  lemma MessagesDiffer(id: string)
    ensures NotFound(id) != NoId && NotFound(id) != AlreadyIn && NotFound(id) != MissingTab(DataSheet)
  {
    assert NotFound(id)[0] == 'C';
    assert NoId[0] == 'N' && AlreadyIn[0] == 'T' && MissingTab(DataSheet)[0] == 'M';
  }

  /** A blank id is an error; an id on the submissions tab is refused,
      whatever the data tab holds, and only then. */
  lemma LookupBlocked(sub: Option<seq<Row>>, data: Option<seq<Row>>, idRaw: Cell)
    ensures Trim(StrOf(idRaw)) == "" ==> Lookup(sub, data, idRaw) == Err(NoId)
    ensures Lookup(sub, data, idRaw) == Err(AlreadyIn) <==>
              Trim(StrOf(idRaw)) != "" && sub.Some?
              && exists i :: 0 <= i < |sub.value| && IdOf(sub.value[i]) == Trim(StrOf(idRaw))
  {
    var id := Trim(StrOf(idRaw));
    MessagesDiffer(id);
    assert AlreadyIn != NoId && AlreadyIn != MissingTab(DataSheet);
    if id != "" && sub.Some? {
      if First(sub.value, IdIs(id)).Some? {
        var i := First(sub.value, IdIs(id)).value;
        assert IdIs(id)(sub.value[i]);
      } else {
        forall i | 0 <= i < |sub.value| ensures IdOf(sub.value[i]) != id {
          assert !IdIs(id)(sub.value[i]);
        }
      }
    }
  }

  /** A found record is that of the first data row with the id. */
  lemma LookupFound(sub: Option<seq<Row>>, data: Option<seq<Row>>, idRaw: Cell)
    requires Lookup(sub, data, idRaw).Ok?
    ensures data.Some?
    ensures exists j :: 0 <= j < |data.value| && IdOf(data.value[j]) == Trim(StrOf(idRaw))
                        && Lookup(sub, data, idRaw).value == RecordOf(data.value[j])
                        && forall i :: 0 <= i < j ==> IdOf(data.value[i]) != Trim(StrOf(idRaw))
  {
    var id := Trim(StrOf(idRaw));
    var j := First(data.value, IdIs(id)).value;
    assert IdIs(id)(data.value[j]);
    forall i | 0 <= i < j ensures IdOf(data.value[i]) != id {
      assert !IdIs(id)(data.value[i]);
    }
  }

  /** "Not found" means the data tab has no row with the id. */
  lemma LookupNotFound(sub: Option<seq<Row>>, data: Option<seq<Row>>, idRaw: Cell)
    requires Lookup(sub, data, idRaw) == Err(NotFound(Trim(StrOf(idRaw))))
    ensures data.Some? && forall j :: 0 <= j < |data.value| ==> IdOf(data.value[j]) != Trim(StrOf(idRaw))
  {
    var id := Trim(StrOf(idRaw));
    MessagesDiffer(id);
    forall j | 0 <= j < |data.value| ensures IdOf(data.value[j]) != id {
      assert !IdIs(id)(data.value[j]);
    }
  }

  // -------------------------------------------------------------- submit

  /** The payload object: its properties by name. */
  type Payload = map<string, Cell>

  const NoPayload: string := "No payload."
  const NoCpsId: string := "CPS ID Number is required."
  const Saved: string := "Submission saved to 2026."

  /** payload.x, '' when the property is absent. */
  function Raw(p: Payload, name: string): Cell {
    if name in p then p[name] else Empty
  }

  /** payload.x || '' */
  function OrBlank(v: Cell): (r: Cell)
    ensures Truthy(v) ==> r == v
    ensures !Truthy(v) ==> r == Empty
  {
    if Truthy(v) then v else Empty
  }

  /** (a.month, a.day) on or before (b.month, b.day) of the same year, or
      a in an earlier year. */
  predicate DayLe(a: Day, b: Day) {
    a.year < b.year || (a.year == b.year && (a.month < b.month || (a.month == b.month && a.day <= b.day)))
  }

  /** The k-th birthday of someone born on b. */
  function Anniversary(b: Day, k: int): Day {
    Day(b.year + k, b.month, b.day)
  }

  /** yearsBetween_(b, r): the age on day r of someone born on b, the
      number of birthdays reached: the age-th one is on or before r and
      the next one is after r. */
  function YearsBetween(b: Day, r: Day): (age: int)
    ensures DayLe(Anniversary(b, age), r) && !DayLe(Anniversary(b, age + 1), r)
    ensures forall k :: DayLe(Anniversary(b, k), r) && !DayLe(Anniversary(b, k + 1), r) ==> k == age
  {
    var age := r.year - b.year;
    var m := r.month - b.month;
    if m < 0 || (m == 0 && r.day < b.day) then age - 1 else age
  }

  /** The birth date column: MM/DD/YYYY of the parsed birth date, ''
      when it does not parse. */
  function BirthCell(p: Payload): Cell {
    match ParseLooseDate(Raw(p, "birthDate"))
    case Some(b) => Text(MdyText(b))
    case None => Empty
  }

  /** The age column: the age on the intake day, '' without a birth date. */
  function AgeCell(p: Payload, today: Day): Cell {
    match ParseLooseDate(Raw(p, "birthDate"))
    case Some(b) => Num(YearsBetween(b, today))
    case None => Empty
  }

  /** A column that holds the payload field of its name as given. */
  predicate Plain(k: nat) {
    k < FieldCount && k != ColTimestamp && k != ColIntakeDate && k != ColBirthDate && k != ColAge && k != ColCpsId
  }

  /** The cell written in column k; the CPS ID column is the one the
      lookups read. */
  function SubmitCell(p: Payload, k: nat, now: Instant): Cell
    requires k < FieldCount
  {
    if k == ColTimestamp then now
    else if k == ColIntakeDate then Text(MdyText(now.date))
    else if k == ColBirthDate then BirthCell(p)
    else if k == ColAge then AgeCell(p, now.date)
    else if k == ColCpsId then OrBlank(Raw(p, "cpsIdNumber"))
    else OrBlank(Raw(p, FieldNames[k]))
  }

  /** The submission row, every column assigned. */
  function SubmitRow(p: Payload, now: Instant): (row: Row)
    ensures |row| == FieldCount
  {
    seq(FieldCount, k requires 0 <= k < FieldCount => SubmitCell(p, k, now))
  }

  /** The outcome of submitForm: the payload checks, then the tab. */
  function SubmitResult(payload: Option<Payload>, tabPresent: bool): Result<string> {
    if payload.None? then Err(NoPayload)
    else if !Truthy(Raw(payload.value, "cpsIdNumber")) then Err(NoCpsId)
    else if !tabPresent then Err(MissingTab(SubmissionsSheet))
    else Ok(Saved)
  }

  /** The tab after appendRow(row): padded to the tab's width, or the tab
      widened to the row. */
  predicate AppendedRow(h0: Row, d0: seq<Row>, h: Row, d: seq<Row>, row: Row) {
    if |row| <= |h0| then h == h0 && d == d0 + [Pad(row, |h0|)]
    else h == Pad(h0, |row|) && d == PadAll(d0, |row|) + [row]
  }

  /** submitForm(payload) on the submissions tab (null when missing), with
      `now` for new Date(). */
  method SubmitForm(sh: Sheet?, payload: Option<Payload>, now: Instant) returns (r: Result<string>)
    requires sh != null ==> sh.Valid()
    modifies sh
    ensures r == SubmitResult(payload, sh != null)
    ensures r.Err? && sh != null ==> sh.header == old(sh.header) && sh.data == old(sh.data)
    ensures r.Ok? ==> sh != null && sh.Valid()
                      && AppendedRow(old(sh.header), old(sh.data), sh.header, sh.data, SubmitRow(payload.value, now))
  {
    if payload.None? {
      return Err(NoPayload);
    }
    if !Truthy(Raw(payload.value, "cpsIdNumber")) {
      return Err(NoCpsId);
    }
    if sh == null {
      return Err(MissingTab(SubmissionsSheet));
    }
    var row := SubmitRow(payload.value, now);
    sh.AppendRow(row);
    r := Ok(Saved);
  }

  /** The submission row holds the payload's CPS ID, the intake date of
      `now`, the birth date and age when the birth date parses ('' when it
      does not), and every other field the payload has with a truthy
      value; any field the payload lacks is ''. */
  lemma SubmitRowMeaning(p: Payload, now: Instant)
    ensures SubmitRow(p, now)[ColCpsId] == OrBlank(Raw(p, "cpsIdNumber"))
    ensures SubmitRow(p, now)[ColTimestamp] == now
    ensures SubmitRow(p, now)[ColIntakeDate] == Text(MdyText(now.date))
    ensures forall b :: ParseLooseDate(Raw(p, "birthDate")) == Some(b) ==>
              SubmitRow(p, now)[ColBirthDate] == Text(MdyText(b))
              && SubmitRow(p, now)[ColAge] == Num(YearsBetween(b, now.date))
    ensures ParseLooseDate(Raw(p, "birthDate")).None? ==>
              SubmitRow(p, now)[ColBirthDate] == Empty && SubmitRow(p, now)[ColAge] == Empty
  {
    var row := SubmitRow(p, now);
    assert row[ColCpsId] == SubmitCell(p, ColCpsId, now);
    assert row[ColTimestamp] == SubmitCell(p, ColTimestamp, now);
    assert row[ColIntakeDate] == SubmitCell(p, ColIntakeDate, now);
    assert row[ColBirthDate] == SubmitCell(p, ColBirthDate, now);
    assert row[ColAge] == SubmitCell(p, ColAge, now);
  }

  /** Every other column holds the payload field of its name when that is
      truthy, and '' when the payload lacks it. */
  lemma SubmitRowFields(p: Payload, now: Instant, k: nat)
    requires Plain(k)
    ensures FieldNames[k] !in p ==> SubmitRow(p, now)[k] == Empty
    ensures FieldNames[k] in p && Truthy(p[FieldNames[k]]) ==> SubmitRow(p, now)[k] == p[FieldNames[k]]
  {
    assert SubmitRow(p, now)[k] == SubmitCell(p, k, now);
  }

  /** Once a submission is saved, looking its CPS ID up is refused as
      already in 2026, whatever the data tab holds. */
  lemma SubmittedIsBlocked(h0: Row, d0: seq<Row>, h: Row, d: seq<Row>, p: Payload, now: Instant,
                           data: Option<seq<Row>>)
    requires AppendedRow(h0, d0, h, d, SubmitRow(p, now))
    requires Truthy(Raw(p, "cpsIdNumber")) && Trim(StrOf(Raw(p, "cpsIdNumber"))) != ""
    ensures Lookup(Some(d), data, Raw(p, "cpsIdNumber")) == Err(AlreadyIn)
  {
    var row := SubmitRow(p, now);
    var id := Trim(StrOf(Raw(p, "cpsIdNumber")));
    assert row[ColCpsId] == Raw(p, "cpsIdNumber");
    assert IdOf(d[|d| - 1]) == id;
    LookupBlocked(Some(d), data, Raw(p, "cpsIdNumber"));
  }
}
