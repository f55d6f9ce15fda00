// The link tables of a group contact session: group_contact_participants
// (GroupContactParticipants.js) and group_contact_mentors
// (GroupContactMentors.js). A save de-duplicates the incoming people by
// trimmed id, keeps the rows of every other contact in order, and replaces
// the rows of this contact by the incoming ones, clearing and rewriting the
// data area.
module Links {
  import opened Wrappers
  import opened Strings
  import opened Cells
  import opened Utils
  import opened Columns
  import opened Scan

  // ------------------------------------------------------ de-duplication

  /** An incoming {id, name}; a missing field is an empty cell. */
  datatype Entry = Entry(id: Cell, name: Cell)

  /** An entry that survives: its trimmed id and trimmed name. */
  datatype Link = Link(id: string, name: string)

  /** The ids in the `seen` Set once the links have been kept. */
  function IdSet(ks: seq<Link>): set<string>
    decreases |ks|
  {
    if ks == [] then {} else IdSet(ks[..|ks| - 1]) + {ks[|ks| - 1].id}
  }

  /** The links the `.map` with the `seen` Set produces: an entry with a
      blank id or an id seen before is dropped, any other one is kept. */
  function Kept(es: seq<Entry>): seq<Link>
    decreases |es|
  {
    if es == [] then []
    else
      var ks := Kept(es[..|es| - 1]);
      var id := CellText(es[|es| - 1].id);
      if id == "" || id in IdSet(ks) then ks else ks + [Link(id, CellText(es[|es| - 1].name))]
  }

  lemma IdSetSnoc(ks: seq<Link>, l: Link)
    ensures IdSet(ks + [l]) == IdSet(ks) + {l.id}
  {
    assert (ks + [l])[..|ks|] == ks;
  }

  lemma KeptSnoc(es: seq<Entry>, i: nat)
    requires i < |es|
    ensures var ks := Kept(es[..i]);
            var id := CellText(es[i].id);
            Kept(es[..i + 1]) == if id == "" || id in IdSet(ks) then ks else ks + [Link(id, CellText(es[i].name))]
  {
    assert es[..i + 1][..i] == es[..i];
  }

  /** The de-duplicating `.map(...).filter(Boolean)` over the incoming list. */
  method DedupeEntries(es: seq<Entry>) returns (ks: seq<Link>)
    ensures ks == Kept(es)
  {
    var seen: set<string> := {};
    ks := [];
    var i := 0;
    while i < |es|
      invariant 0 <= i <= |es|
      invariant ks == Kept(es[..i]) && seen == IdSet(ks)
    {
      KeptSnoc(es, i);
      var id := CellText(es[i].id);
      if id != "" && id !in seen {
        var l := Link(id, CellText(es[i].name));
        IdSetSnoc(ks, l);
        seen := seen + {id};
        ks := ks + [l];
      }
      i := i + 1;
    }
    assert es[..|es|] == es;
  }

  /** The non-blank trimmed ids of the incoming entries. */
  function IncomingIds(es: seq<Entry>): set<string>
    decreases |es|
  {
    if es == [] then {}
    else
      var id := CellText(es[|es| - 1].id);
      IncomingIds(es[..|es| - 1]) + (if id == "" then {} else {id})
  }

  /** Every non-blank incoming id is kept, and nothing else is. */
  lemma {:induction false} KeptIds(es: seq<Entry>)
    ensures IdSet(Kept(es)) == IncomingIds(es)
    decreases |es|
  {
    if es != [] {
      var n := |es| - 1;
      KeptIds(es[..n]);
      KeptSnoc(es, n);
      assert es[..n + 1] == es;
      var ks := Kept(es[..n]);
      var id := CellText(es[n].id);
      if !(id == "" || id in IdSet(ks)) {
        IdSetSnoc(ks, Link(id, CellText(es[n].name)));
      }
    }
  }

  lemma {:induction false} IdSetHas(ks: seq<Link>, x: string)
    ensures x in IdSet(ks) <==> exists k :: 0 <= k < |ks| && ks[k].id == x
    decreases |ks|
  {
    if ks != [] {
      var n := |ks| - 1;
      IdSetHas(ks[..n], x);
      assert ks == ks[..n] + [ks[n]];
      if x in IdSet(ks[..n]) {
        var k :| 0 <= k < n && ks[..n][k].id == x;
        assert ks[k].id == x;
      }
    }
  }

  /** No two kept links share an id, and no kept id is blank. */
  predicate DistinctIds(ks: seq<Link>) {
    (forall k :: 0 <= k < |ks| ==> ks[k].id != "")
    && forall k, l :: 0 <= k < l < |ks| ==> ks[k].id != ks[l].id
  }

  lemma {:induction false} KeptDistinct(es: seq<Entry>)
    ensures DistinctIds(Kept(es))
    decreases |es|
  {
    if es != [] {
      var n := |es| - 1;
      KeptDistinct(es[..n]);
      KeptSnoc(es, n);
      assert es[..n + 1] == es;
      var ks := Kept(es[..n]);
      var id := CellText(es[n].id);
      if !(id == "" || id in IdSet(ks)) {
        IdSetHas(ks, id);
      }
    }
  }

  /** The trimmed name of the first entry carrying id, if any. */
  function FirstName(es: seq<Entry>, id: string): Option<string>
    decreases |es|
  {
    if es == [] then None
    else
      match FirstName(es[..|es| - 1], id)
      case Some(v) => Some(v)
      case None => if CellText(es[|es| - 1].id) == id then Some(CellText(es[|es| - 1].name)) else None
  }

  /** A kept link holds the name of the first entry with its id: later
      repeats never replace it. */
  lemma {:induction false} KeptIsFirst(es: seq<Entry>, k: nat)
    requires k < |Kept(es)|
    ensures FirstName(es, Kept(es)[k].id) == Some(Kept(es)[k].name)
    decreases |es|
  {
    var n := |es| - 1;
    KeptSnoc(es, n);
    assert es[..n + 1] == es;
    var ks := Kept(es[..n]);
    var id := CellText(es[n].id);
    if k < |ks| {
      KeptIsFirst(es[..n], k);
    } else {
      assert Kept(es) == ks + [Link(id, CellText(es[n].name))] && id !in IdSet(ks);
      KeptIds(es[..n]);
      FirstNameNone(es[..n], id);
    }
  }

  lemma {:induction false} FirstNameNone(es: seq<Entry>, id: string)
    requires id != "" && id !in IncomingIds(es)
    ensures FirstName(es, id) == None
    decreases |es|
  {
    if es != [] {
      FirstNameNone(es[..|es| - 1], id);
    }
  }

  /** The entries a list of links reads as when fed back in. */
  function AsEntries(ks: seq<Link>): (es: seq<Entry>)
    ensures |es| == |ks|
  {
    seq(|ks|, k requires 0 <= k < |ks| => Entry(Text(ks[k].id), Text(ks[k].name)))
  }

  predicate Trimmed(ks: seq<Link>) {
    forall k :: 0 <= k < |ks| ==> NoEdgeSpace(ks[k].id) && NoEdgeSpace(ks[k].name)
  }

  lemma KeptTrimmed(es: seq<Entry>)
    ensures Trimmed(Kept(es))
    decreases |es|
  {
    if es != [] {
      KeptTrimmed(es[..|es| - 1]);
    }
  }

  /** De-duplicating an already de-duplicated list changes nothing. */
  lemma {:induction false} KeptOfKept(ks: seq<Link>)
    requires DistinctIds(ks) && Trimmed(ks)
    ensures Kept(AsEntries(ks)) == ks
    decreases |ks|
  {
    if ks != [] {
      var n := |ks| - 1;
      PrefixDistinctTrimmed(ks, n);
      AsEntriesPrefix(ks, n);
      KeptOfKept(ks[..n]);
      KeptOfKeptStep(ks, AsEntries(ks), n);
    }
  }

  lemma AsEntriesPrefix(ks: seq<Link>, n: nat)
    requires n <= |ks|
    ensures AsEntries(ks[..n]) == AsEntries(ks)[..n]
  {
  }

  /** The last link of a de-duplicated list is kept after the others. */
  lemma KeptOfKeptStep(ks: seq<Link>, es: seq<Entry>, n: nat)
    requires n + 1 == |ks| && es == AsEntries(ks) && Kept(es[..n]) == ks[..n]
    requires DistinctIds(ks) && Trimmed(ks)
    ensures Kept(es) == ks
  {
    var l := ks[n];
    LastNotSeen(ks, n);
    CellTextOfTrimmed(l.id);
    CellTextOfTrimmed(l.name);
    KeptAddsLink(es, ks[..n], l);
    LinksSnoc(ks, n);
  }

  lemma PrefixDistinctTrimmed(ks: seq<Link>, n: nat)
    requires DistinctIds(ks) && Trimmed(ks) && n <= |ks|
    ensures DistinctIds(ks[..n]) && Trimmed(ks[..n])
  {
  }

  lemma LinksSnoc(ks: seq<Link>, n: nat)
    requires n + 1 == |ks|
    ensures ks == ks[..n] + [ks[n]]
  {
  }

  lemma LastNotSeen(ks: seq<Link>, n: nat)
    requires DistinctIds(ks) && n < |ks|
    ensures ks[n].id != "" && ks[n].id !in IdSet(ks[..n])
  {
    IdSetHas(ks[..n], ks[n].id);
  }

  /** An entry whose id is new adds its link at the end. */
  lemma KeptAddsLink(es: seq<Entry>, ks: seq<Link>, l: Link)
    requires es != [] && Kept(es[..|es| - 1]) == ks
    requires CellText(es[|es| - 1].id) == l.id && CellText(es[|es| - 1].name) == l.name
    requires l.id != "" && l.id !in IdSet(ks)
    ensures Kept(es) == ks + [l]
  {
  }

  lemma DedupeTwice(es: seq<Entry>)
    ensures Kept(AsEntries(Kept(es))) == Kept(es)
  {
    KeptDistinct(es);
    KeptTrimmed(es);
    KeptOfKept(Kept(es));
  }

  // ---------------------------------------------------------- name split

  /** `name.split(/\s+/)`: the last word is LastName and the other words,
      joined by ' ', FirstName; a blank name leaves both blank. */
  function NameParts(name: string): (string, string) {
    var ws := Words(name);
    if name == "" || ws == [] then ("", "") else (Join(ws[..|ws| - 1], " "), ws[|ws| - 1])
  }

  /** A name of words separated by single spaces splits into the last word
      and the words before it, and the two parts put back together give
      the name; a one-word name is all LastName. */
  lemma NamePartsOfWords(ws: seq<string>)
    requires ws != [] && forall i :: 0 <= i < |ws| ==> IsWord(ws[i])
    ensures var n := NameParts(Join(ws, " "));
            n == (Join(ws[..|ws| - 1], " "), ws[|ws| - 1])
            && (if |ws| == 1 then n.0 == "" && n.1 == Join(ws, " ") else n.0 + " " + n.1 == Join(ws, " "))
  {
    var name := Join(ws, " ");
    WordsOfJoin(ws);
    JoinNotBlank(ws);
    NamePartsOf(name, ws);
    RejoinLast(ws);
  }

  lemma NamePartsOf(name: string, ws: seq<string>)
    requires name != "" && ws != [] && Words(name) == ws
    ensures NameParts(name) == (Join(ws[..|ws| - 1], " "), ws[|ws| - 1])
  {
  }

  /** The words before the last, joined, then a space and the last word. */
  lemma RejoinLast(ws: seq<string>)
    requires ws != []
    ensures |ws| == 1 ==> Join(ws[..0], " ") == "" && ws[0] == Join(ws, " ")
    ensures |ws| > 1 ==> Join(ws[..|ws| - 1], " ") + " " + ws[|ws| - 1] == Join(ws, " ")
  {
    var n := |ws| - 1;
    if n > 0 {
      assert ws[..n] + [ws[n]] == ws;
      JoinLast(ws[..n], ws[n], " ");
    }
  }

  lemma JoinNotBlank(ws: seq<string>)
    requires ws != [] && IsWord(ws[0])
    ensures Join(ws, " ") != ""
  {
    if |ws| > 1 {
      assert |Join(ws, " ")| >= |ws[0]|;
    }
  }

  // ------------------------------------------------------------- rows

  /** [contactId, id, first, last, now, now]. */
  function ParticipantRow(contactId: string, l: Link, now: Instant): (r: Row)
    ensures |r| == 6
  {
    var n := NameParts(l.name);
    [Text(contactId), Text(l.id), Text(n.0), Text(n.1), now, now]
  }

  function ParticipantRows(contactId: string, ks: seq<Link>, now: Instant): (rs: seq<Row>)
    ensures |rs| == |ks|
  {
    seq(|ks|, k requires 0 <= k < |ks| => ParticipantRow(contactId, ks[k], now))
  }

  /** [contactId, id, name || id, now, now]. */
  function MentorRow(contactId: string, l: Link, now: Instant): (r: Row)
    ensures |r| == 5
  {
    [Text(contactId), Text(l.id), Text(if l.name == "" then l.id else l.name), now, now]
  }

  function MentorRows(contactId: string, ks: seq<Link>, now: Instant): (rs: seq<Row>)
    ensures |rs| == |ks|
  {
    seq(|ks|, k requires 0 <= k < |ks| => MentorRow(contactId, ks[k], now))
  }

  // ---------------------------------------------------------- rewrite

  /** String(r[col] || '').trim() as a key of a row. */
  function KeyAt(col: Option<nat>): Row -> string {
    r => FieldText(r, col)
  }

  /** data.filter(r => String(r[C.ContactID] || '').trim() !== contactId). */
  function Others(data: seq<Row>, col: Option<nat>, contactId: string): seq<Row> {
    Sift(data, KeyAt(col), contactId, false)
  }

  /** The rows filed under contactId, in order. */
  function Mine(data: seq<Row>, col: Option<nat>, contactId: string): seq<Row> {
    Sift(data, KeyAt(col), contactId, true)
  }

  lemma OthersConcat(a: seq<Row>, b: seq<Row>, col: Option<nat>, contactId: string)
    ensures Others(a + b, col, contactId) == Others(a, col, contactId) + Others(b, col, contactId)
    ensures Mine(a + b, col, contactId) == Mine(a, col, contactId) + Mine(b, col, contactId)
  {
    SiftConcat(a, b, KeyAt(col), contactId, false);
    SiftConcat(a, b, KeyAt(col), contactId, true);
  }

  /** Every row carries contactId in col. */
  predicate Carries(rows: seq<Row>, col: Option<nat>, contactId: string) {
    forall i :: 0 <= i < |rows| ==> FieldText(rows[i], col) == contactId
  }

  lemma OthersOfCarried(rows: seq<Row>, col: Option<nat>, contactId: string)
    requires Carries(rows, col, contactId)
    ensures Others(rows, col, contactId) == [] && Mine(rows, col, contactId) == rows
  {
    SiftAll(rows, KeyAt(col), contactId);
  }

  lemma OthersOfOthers(data: seq<Row>, col: Option<nat>, contactId: string)
    ensures Others(Others(data, col, contactId), col, contactId) == Others(data, col, contactId)
    ensures Mine(Others(data, col, contactId), col, contactId) == []
  {
    SiftOfSift(data, KeyAt(col), contactId);
  }

  /** A row is dropped exactly when it is filed under contactId. */
  lemma OthersCount(data: seq<Row>, col: Option<nat>, contactId: string)
    ensures |Others(data, col, contactId)| + |Mine(data, col, contactId)| == |data|
  {
    SiftCount(data, KeyAt(col), contactId);
  }

  /** Others keeps the rows it keeps unchanged, so their width too. */
  lemma OthersWidth(data: seq<Row>, col: Option<nat>, contactId: string, w: nat)
    requires forall i :: 0 <= i < |data| ==> |data[i]| == w
    ensures forall i :: 0 <= i < |Others(data, col, contactId)| ==> |Others(data, col, contactId)[i]| == w
  {
    SiftWidth(data, KeyAt(col), contactId, false, w);
  }

  /** `rows.length || keep.length !== data.length`. */
  predicate Changed(data: seq<Row>, col: Option<nat>, contactId: string, rows: seq<Row>) {
    |rows| > 0 || |Others(data, col, contactId)| != |data|
  }

  /** The data rows after the save: unchanged when nothing changes,
      otherwise the kept rows followed by the new ones, each written as
      wide as the sheet. */
  function Relinked(data: seq<Row>, col: Option<nat>, contactId: string, rows: seq<Row>, w: nat): seq<Row> {
    if Changed(data, col, contactId, rows) then FitAll(Others(data, col, contactId) + rows, w) else data
  }

  /** The data rows as the code leaves them: setValues refuses rows whose
      width differs from lastCol, and by then _clearDataRows_ has already
      emptied the data area. */
  function RelinkedAsWritten(data: seq<Row>, col: Option<nat>, contactId: string, rows: seq<Row>, w: nat): seq<Row> {
    var all := Others(data, col, contactId) + rows;
    if !Changed(data, col, contactId, rows) then data
    else if forall i :: 0 <= i < |all| ==> |all[i]| == w then all
    else []
  }

  /** A link table whose header is not exactly as wide as the rows the
      save builds loses the rows of every other contact. */
  lemma AsWrittenLosesOthers(data: seq<Row>, col: Option<nat>, contactId: string, rows: seq<Row>, w: nat)
    requires rows != [] && |rows[0]| != w
    ensures RelinkedAsWritten(data, col, contactId, rows, w) == []
  {
    var all := Others(data, col, contactId) + rows;
    assert all[|Others(data, col, contactId)|] == rows[0];
  }

  /** The rewrite the code evidently intends: other contacts' rows stay,
      in order, and this contact's rows are the new ones. */
  lemma ReplaceForKey(data: seq<Row>, col: Option<nat>, contactId: string, rows: seq<Row>, w: nat)
    requires forall i :: 0 <= i < |data| ==> |data[i]| == w
    requires Carries(FitAll(rows, w), col, contactId)
    ensures var d2 := Relinked(data, col, contactId, rows, w);
            Others(d2, col, contactId) == Others(data, col, contactId)
            && Mine(d2, col, contactId) == FitAll(rows, w)
  {
    var keep := Others(data, col, contactId);
    if Changed(data, col, contactId, rows) {
      OthersWidth(data, col, contactId, w);
      FitAllFit(keep, w);
      assert FitAll(keep + rows, w) == keep + FitAll(rows, w);
      OthersConcat(keep, FitAll(rows, w), col, contactId);
      OthersOfOthers(data, col, contactId);
      OthersOfCarried(FitAll(rows, w), col, contactId);
    } else {
      OthersCount(data, col, contactId);
      assert FitAll(rows, w) == [];
    }
  }

  /** Nothing to add and nothing filed under contactId: no rewrite. */
  lemma UnchangedWhenNothingToDo(data: seq<Row>, col: Option<nat>, contactId: string, w: nat)
    requires Mine(data, col, contactId) == []
    ensures Relinked(data, col, contactId, [], w) == data
  {
    OthersCount(data, col, contactId);
  }

  /** Saving the same rows again leaves the table as the first save left it. */
  lemma RelinkIdempotent(data: seq<Row>, col: Option<nat>, contactId: string, rows: seq<Row>, w: nat)
    requires forall i :: 0 <= i < |data| ==> |data[i]| == w
    requires Carries(FitAll(rows, w), col, contactId)
    ensures var d2 := Relinked(data, col, contactId, rows, w);
            Relinked(d2, col, contactId, rows, w) == d2
  {
    var d2 := Relinked(data, col, contactId, rows, w);
    if Changed(data, col, contactId, rows) {
      ReplaceForKey(data, col, contactId, rows, w);
      var keep := Others(data, col, contactId);
      OthersWidth(data, col, contactId, w);
      FitAllFit(keep, w);
      assert d2 == keep + FitAll(rows, w);
      if Changed(d2, col, contactId, rows) {
        assert FitAll(keep + rows, w) == keep + FitAll(rows, w);
      }
    }
  }

  /** `keep.concat(rows)` after `_clearDataRows_`, each row fitted to the
      sheet's width; nothing is written when nothing changes. */
  method Relink(sh: Sheet, col: Option<nat>, contactId: string, rows: seq<Row>)
    requires sh.Valid()
    modifies sh
    ensures sh.Valid() && sh.header == old(sh.header)
    ensures sh.data == Relinked(old(sh.data), col, contactId, rows, old(sh.Width()))
  {
    var keep := Others(sh.data, col, contactId);
    if |rows| > 0 || |keep| != |sh.data| {
      var w := sh.Width();
      var all := FitAll(keep + rows, w);
      ClearDataRows(sh);
      if |all| > 0 {
        var ok := sh.WriteDataRows(all);
      }
    }
  }

  // ------------------------------------------------------------ ensure

  /** The participant header written on an empty sheet. */
  const ParticipantSeed: Row := [Text("ContactID"), Text("StudentID"), Text("FirstName"), Text("LastName"),
                                 Text("CreatedAt"), Text("EditedAt")]

  /** The mentor header written on an empty sheet. */
  const MentorSeed: Row := [Text("ContactID"), Text("MentorID"), Text("Name"), Text("CreatedAt"), Text("EditedAt")]

  /** C.ContactID: idx.get('contactid'). */
  function ContactCol(h: Row): Option<nat> {
    Find(HeaderKeys(h), "contactid")
  }

  /** With the participant seed keys in place, C.ContactID is column 0. */
  lemma FindParticipantContact(keys: seq<string>)
    requires ParticipantKeys(keys)
    ensures Find(keys, "contactid") == Some(0)
  {
    FindAt(keys, "contactid", 0);
  }

  /** With the mentor seed keys in place, C.ContactID is column 0. */
  lemma FindMentorContact(keys: seq<string>)
    requires MentorKeys(keys)
    ensures Find(keys, "contactid") == Some(0)
  {
    FindAt(keys, "contactid", 0);
  }

  lemma KeyOfStudentID() ensures NormKey(CellText(Text("StudentID"))) == "studentid" { NormKeyOfName("StudentID", "studentid"); }
  lemma KeyOfFirstName() ensures NormKey(CellText(Text("FirstName"))) == "firstname" { NormKeyOfName("FirstName", "firstname"); }
  lemma KeyOfLastName() ensures NormKey(CellText(Text("LastName"))) == "lastname" { NormKeyOfName("LastName", "lastname"); }
  lemma KeyOfMentorID() ensures NormKey(CellText(Text("MentorID"))) == "mentorid" { NormKeyOfName("MentorID", "mentorid"); }
  lemma KeyOfName() ensures NormKey(CellText(Text("Name"))) == "name" { NormKeyOfName("Name", "name"); }

  /** Blank cells have the empty key. */
  lemma BlankKeys(seed: Row, rest: Row)
    requires forall j :: 0 <= j < |rest| ==> rest[j] == Empty
    ensures forall j :: |seed| <= j < |seed + rest| ==> HeaderKeys(seed + rest)[j] == ""
  {
    forall j | |seed| <= j < |seed + rest| ensures HeaderKeys(seed + rest)[j] == "" {
      assert (seed + rest)[j] == rest[j - |seed|];
    }
  }

  /** The keys of a seeded participant header. */
  predicate ParticipantKeys(keys: seq<string>) {
    |keys| >= 6 && keys[0] == "contactid" && keys[1] == "studentid" && keys[2] == "firstname"
    && keys[3] == "lastname" && keys[4] == "createdat" && keys[5] == "editedat"
    && forall j :: 6 <= j < |keys| ==> keys[j] == ""
  }

  /** The keys of a seeded mentor header. */
  predicate MentorKeys(keys: seq<string>) {
    |keys| >= 5 && keys[0] == "contactid" && keys[1] == "mentorid" && keys[2] == "name"
    && keys[3] == "createdat" && keys[4] == "editedat"
    && forall j :: 5 <= j < |keys| ==> keys[j] == ""
  }

  lemma ParticipantKeysLow(s: Row)
    requires |s| >= 3 && s[..3] == ParticipantSeed[..3]
    ensures var keys := HeaderKeys(s);
            keys[0] == "contactid" && keys[1] == "studentid" && keys[2] == "firstname"
  {
    assert s[0] == Text("ContactID") && s[1] == Text("StudentID") && s[2] == Text("FirstName");
    KeyOfContactID();
    KeyOfStudentID();
    KeyOfFirstName();
  }

  lemma ParticipantKeysHigh(s: Row)
    requires |s| >= 6 && s[3..6] == ParticipantSeed[3..]
    ensures var keys := HeaderKeys(s);
            keys[3] == "lastname" && keys[4] == "createdat" && keys[5] == "editedat"
  {
    assert s[3] == Text("LastName") && s[4] == Text("CreatedAt") && s[5] == Text("EditedAt");
    KeyOfLastName();
    KeyOfCreatedAt();
    KeyOfEditedAt();
  }

  lemma ParticipantSeedKeys(rest: Row)
    requires forall j :: 0 <= j < |rest| ==> rest[j] == Empty
    ensures ParticipantKeys(HeaderKeys(ParticipantSeed + rest))
  {
    var s := ParticipantSeed + rest;
    assert s[..3] == ParticipantSeed[..3] && s[3..6] == ParticipantSeed[3..];
    ParticipantKeysLow(s);
    ParticipantKeysHigh(s);
    BlankKeys(ParticipantSeed, rest);
  }

  /** On a seeded participant sheet ContactID is the first column, where
      the rows carry it. */
  lemma {:induction false} SeededParticipantsKey(h: Row)
    requires forall j :: 0 <= j < |h| ==> h[j] == Empty
    ensures ContactCol(Seeded(ParticipantSeed, h)) == Some(0)
  {
    var rest := if |h| <= 6 then [] else h[6..];
    assert Seeded(ParticipantSeed, h) == ParticipantSeed + rest;
    ParticipantSeedKeys(rest);
    FindParticipantContact(HeaderKeys(ParticipantSeed + rest));
  }

  lemma MentorKeysLow(s: Row)
    requires |s| >= 3 && s[..3] == MentorSeed[..3]
    ensures var keys := HeaderKeys(s);
            keys[0] == "contactid" && keys[1] == "mentorid" && keys[2] == "name"
  {
    assert s[0] == Text("ContactID") && s[1] == Text("MentorID") && s[2] == Text("Name");
    KeyOfContactID();
    KeyOfMentorID();
    KeyOfName();
  }

  lemma MentorKeysHigh(s: Row)
    requires |s| >= 5 && s[3..5] == MentorSeed[3..]
    ensures var keys := HeaderKeys(s);
            keys[3] == "createdat" && keys[4] == "editedat"
  {
    assert s[3] == Text("CreatedAt") && s[4] == Text("EditedAt");
    KeyOfCreatedAt();
    KeyOfEditedAt();
  }

  lemma MentorSeedKeys(rest: Row)
    requires forall j :: 0 <= j < |rest| ==> rest[j] == Empty
    ensures MentorKeys(HeaderKeys(MentorSeed + rest))
  {
    var s := MentorSeed + rest;
    assert s[..3] == MentorSeed[..3] && s[3..5] == MentorSeed[3..];
    MentorKeysLow(s);
    MentorKeysHigh(s);
    BlankKeys(MentorSeed, rest);
  }

  /** On a seeded mentor sheet ContactID is the first column. */
  lemma {:induction false} SeededMentorsKey(h: Row)
    requires forall j :: 0 <= j < |h| ==> h[j] == Empty
    ensures ContactCol(Seeded(MentorSeed, h)) == Some(0)
  {
    var rest := if |h| <= 5 then [] else h[5..];
    assert Seeded(MentorSeed, h) == MentorSeed + rest;
    MentorSeedKeys(rest);
    FindMentorContact(HeaderKeys(MentorSeed + rest));
  }

  // -------------------------------------------------------------- saves

  /** The participant table (h, d) after a save under contactId of the
      table (h0, d0): untouched for a blank id, otherwise seeded if empty
      and relinked. */
  predicate ParticipantsSaved(h0: Row, d0: seq<Row>, h: Row, d: seq<Row>, contactId: string, es: seq<Entry>,
                              now: Instant)
  {
    if contactId == "" then h == h0 && d == d0
    else
      var h1 := EnsuredSeedHeader(ParticipantSeed, h0, d0);
      h == h1
      && d == Relinked(EnsuredSeedData(h0, d0), ContactCol(h1), contactId, ParticipantRows(contactId, Kept(es), now), |h1|)
  }

  /** The same for the mentor table. */
  predicate MentorsSaved(h0: Row, d0: seq<Row>, h: Row, d: seq<Row>, contactId: string, es: seq<Entry>, now: Instant) {
    if contactId == "" then h == h0 && d == d0
    else
      var h1 := EnsuredSeedHeader(MentorSeed, h0, d0);
      h == h1
      && d == Relinked(EnsuredSeedData(h0, d0), ContactCol(h1), contactId, MentorRows(contactId, Kept(es), now), |h1|)
  }

  /** The result of a link save: refused for a blank contact id, otherwise
      the number of people kept (`added`). */
  function LinkResult(contactId: string, es: seq<Entry>): Result<nat> {
    if contactId == "" then Err("Missing contactId") else Ok(|Kept(es)|)
  }

  /** saveGroupParticipants(contactId, participants). */
  method SaveGroupParticipants(sh: Sheet, contactId: string, participants: seq<Entry>, now: Instant)
    returns (r: Result<nat>)
    requires sh.Valid()
    modifies sh
    ensures sh.Valid() && r == LinkResult(contactId, participants)
    ensures ParticipantsSaved(old(sh.header), old(sh.data), sh.header, sh.data, contactId, participants, now)
  {
    if contactId == "" {
      return Err("Missing contactId");
    }
    EnsureSeeded(sh, ParticipantSeed);
    var col := ContactCol(sh.header);
    var ks := DedupeEntries(participants);
    var rows := ParticipantRows(contactId, ks, now);
    Relink(sh, col, contactId, rows);
    r := Ok(|ks|);
  }

  /** saveGroupMentors(contactId, mentors) of GroupContactMentors.js. */
  method SaveContactMentors(sh: Sheet, contactId: string, mentors: seq<Entry>, now: Instant)
    returns (r: Result<nat>)
    requires sh.Valid()
    modifies sh
    ensures sh.Valid() && r == LinkResult(contactId, mentors)
    ensures MentorsSaved(old(sh.header), old(sh.data), sh.header, sh.data, contactId, mentors, now)
  {
    if contactId == "" {
      return Err("Missing contactId");
    }
    EnsureSeeded(sh, MentorSeed);
    var col := ContactCol(sh.header);
    var ks := DedupeEntries(mentors);
    var rows := MentorRows(contactId, ks, now);
    Relink(sh, col, contactId, rows);
    r := Ok(|ks|);
  }

  /** As many ids as links when no id repeats. */
  lemma {:induction false} DistinctIdCount(ks: seq<Link>)
    requires DistinctIds(ks)
    ensures |IdSet(ks)| == |ks|
    decreases |ks|
  {
    if ks != [] {
      var n := |ks| - 1;
      assert DistinctIds(ks[..n]);
      DistinctIdCount(ks[..n]);
      IdSetHas(ks[..n], ks[n].id);
    }
  }

  /** `added` counts the distinct non-blank incoming ids. */
  lemma AddedCountsIds(contactId: string, es: seq<Entry>)
    requires contactId != ""
    ensures LinkResult(contactId, es) == Ok(|IncomingIds(es)|)
  {
    KeptIds(es);
    KeptDistinct(es);
    DistinctIdCount(Kept(es));
  }

  // ------------------------------------------------------- row contents

  /** Every participant row read back in the first column carries the
      (trimmed) contact id. */
  lemma ParticipantRowsCarry(contactId: string, ks: seq<Link>, now: Instant, w: nat)
    requires NoEdgeSpace(contactId) && w >= 1
    ensures Carries(FitAll(ParticipantRows(contactId, ks, now), w), Some(0), contactId)
  {
    CellTextOfTrimmed(contactId);
  }

  lemma MentorRowsCarry(contactId: string, ks: seq<Link>, now: Instant, w: nat)
    requires NoEdgeSpace(contactId) && w >= 1
    ensures Carries(FitAll(MentorRows(contactId, ks, now), w), Some(0), contactId)
  {
    CellTextOfTrimmed(contactId);
  }

  /** A mentor row's name is the trimmed name, or the id when the name is
      blank. */
  lemma MentorNameOrId(contactId: string, l: Link, now: Instant)
    ensures var r := MentorRow(contactId, l, now);
            r[1] == Text(l.id) && (l.name != "" ==> r[2] == Text(l.name)) && (l.name == "" ==> r[2] == r[1])
  {
  }

  /** What a participant save leaves in a table whose C.ContactID is the
      first column: the other contacts' rows as they were, and one row per
      kept participant under this contact, as wide as the header. */
  lemma SavedParticipants(h: Row, data: seq<Row>, contactId: string, es: seq<Entry>, now: Instant)
    requires forall i :: 0 <= i < |data| ==> |data[i]| == |h|
    requires ContactCol(h) == Some(0) && NoEdgeSpace(contactId)
    ensures var rows := ParticipantRows(contactId, Kept(es), now);
            var d2 := Relinked(data, Some(0), contactId, rows, |h|);
            Others(d2, Some(0), contactId) == Others(data, Some(0), contactId)
            && Mine(d2, Some(0), contactId) == FitAll(rows, |h|)
            && |Mine(d2, Some(0), contactId)| == |Kept(es)|
  {
    ParticipantRowsCarry(contactId, Kept(es), now, |h|);
    ReplaceForKey(data, Some(0), contactId, ParticipantRows(contactId, Kept(es), now), |h|);
  }

  /** The same for a mentor save. */
  lemma SavedMentors(h: Row, data: seq<Row>, contactId: string, es: seq<Entry>, now: Instant)
    requires forall i :: 0 <= i < |data| ==> |data[i]| == |h|
    requires ContactCol(h) == Some(0) && NoEdgeSpace(contactId)
    ensures var rows := MentorRows(contactId, Kept(es), now);
            var d2 := Relinked(data, Some(0), contactId, rows, |h|);
            Others(d2, Some(0), contactId) == Others(data, Some(0), contactId)
            && Mine(d2, Some(0), contactId) == FitAll(rows, |h|)
            && |Mine(d2, Some(0), contactId)| == |Kept(es)|
  {
    MentorRowsCarry(contactId, Kept(es), now, |h|);
    ReplaceForKey(data, Some(0), contactId, MentorRows(contactId, Kept(es), now), |h|);
  }
}
