// The school attendance reports: rows of the reports tab grouped by school
// and grade, each school's report laid out grade by grade with students in
// name order and mailed to the school's recipients (or to one forced
// group); the recipients read from the ReportMailingList tab; the menu of
// per-school actions; and the rebuild of the School Mailing Lists tab.
module Reports {
  import opened Wrappers
  import opened Strings
  import opened Cells
  import opened Sorting
  import Columns
  import Utils
  import opened Scan

  const SourceSheet := "reports"
  const MenuMaxSchools := 4

  // ------------------------------------------------------------- helpers

  /** reportsNormalize_: lower-cased, only [a-z0-9] kept. */
  function Normalize(c: Cell): (r: string)
    ensures forall i :: 0 <= i < |r| ==> Columns.IsKeyChar(r[i])
  {
    Columns.NormKey(StrOr(c))
  }

  /** A normalised text normalises to itself. */
  lemma NormalizeIdempotent(c: Cell)
    ensures Normalize(Text(Normalize(c))) == Normalize(c)
  {
    Columns.NormKeyIdempotent(StrOr(c));
  }

  /** reportsNormalizeSchool_: trimmed and lower-cased. */
  function NormalizeSchool(c: Cell): (r: string)
    ensures NoEdgeSpace(r) && ToLower(r) == r
  {
    var t := CellText(c);
    LowerNoEdgeSpace(t);
    ToLowerIdempotent(t);
    ToLower(t)
  }

  /** A normalised school key normalises to itself. */
  lemma NormalizeSchoolIdempotent(c: Cell)
    ensures NormalizeSchool(Text(NormalizeSchool(c))) == NormalizeSchool(c)
  {
    var k := NormalizeSchool(c);
    CellTextOfTrimmed(k);
  }

  /** School keys ignore letter case and surrounding white space. */
  lemma NormalizeSchoolIgnoresCaseAndSpace(s: string, p: string, q: string)
    requires AllSpace(p) && AllSpace(q) && NoEdgeSpace(s)
    ensures NormalizeSchool(Text(p + ToUpper(s) + q)) == ToLower(s)
  {
    var t := p + ToUpper(s) + q;
    if t != "" {
      CellTextOfText(t);
    } else {
      assert s == "";
    }
    Utils.LowerTrimIgnoresCaseAndSpace(s, p, q);
    TrimOfTrimmed(s);
  }

  /** The characters that separate entries of an email list: a newline
      (with the white space around it), a comma or a semicolon. */
  const EmailSeps: set<char> := {'\n', ',', ';'}

  /** An entry of an email list: non-blank, trimmed, no separator. */
  predicate IsEntry(e: string) {
    e != [] && NoEdgeSpace(e) && Avoids(e, EmailSeps)
  }

  /** reportsSplitEmails_: [] for a falsy value; otherwise the text split
      at newlines, commas and semicolons, each entry trimmed, blank entries
      dropped. Replacing \s*\n\s* by a comma and splitting on runs of [,;]
      and then trimming and dropping blanks is the same as splitting at
      every separator character and then trimming and dropping blanks. */
  function SplitEmails(c: Cell): (r: seq<string>)
    ensures !Truthy(c) ==> r == []
    ensures forall i :: 0 <= i < |r| ==> IsEntry(r[i])
  {
    if !Truthy(c) then []
    else
      var pieces := Pieces(StrOf(c), EmailSeps);
      PiecesAvoid(StrOf(c), EmailSeps);
      TrimAllAvoid(pieces);
      NonEmpty(TrimAll(pieces))
  }

  lemma TrimAllAvoid(ps: seq<string>)
    requires forall i :: 0 <= i < |ps| ==> Avoids(ps[i], EmailSeps)
    ensures forall i :: 0 <= i < |TrimAll(ps)| ==> Avoids(TrimAll(ps)[i], EmailSeps)
  {
    forall i | 0 <= i < |ps| ensures Avoids(TrimAll(ps)[i], EmailSeps) {
      TrimAvoids(ps[i], EmailSeps);
    }
  }

  /** Splitting entries joined with commas gives the entries back. */
  lemma SplitEmailsOfJoin(es: seq<string>)
    requires es != [] && forall i :: 0 <= i < |es| ==> IsEntry(es[i])
    ensures SplitEmails(Text(Join(es, ","))) == es
  {
    var j := Join(es, ",");
    JoinNoEdgeSpace(es, ",");
    SplitEmailsOfText(j);
    PiecesOfCommaJoin(es);
    TrimAllOfTrimmed(es);
    NonEmptyId(es);
  }

  lemma SplitEmailsOfText(s: string)
    requires s != ""
    ensures SplitEmails(Text(s)) == NonEmpty(TrimAll(Pieces(s, EmailSeps)))
  {
  }

  lemma TrimAllOfTrimmed(es: seq<string>)
    requires forall i :: 0 <= i < |es| ==> NoEdgeSpace(es[i])
    ensures TrimAll(es) == es
  {
    forall i | 0 <= i < |es| ensures TrimAll(es)[i] == es[i] {
      TrimOfTrimmed(es[i]);
    }
  }

  lemma {:induction false} PiecesOfCommaJoin(es: seq<string>)
    requires es != [] && forall i :: 0 <= i < |es| ==> Avoids(es[i], EmailSeps)
    ensures Pieces(Join(es, ","), EmailSeps) == es
    decreases |es|
  {
    if |es| == 1 {
      PiecesOfPlain(es[0], EmailSeps);
    } else {
      PiecesOfCommaJoin(es[1..]);
      assert Join(es, ",") == es[0] + ([','] + Join(es[1..], ","));
      PiecesAfterFirst(es[0], Join(es[1..], ","), EmailSeps, ',');
      assert es == [es[0]] + es[1..];
    }
  }

  /** The lower-cased entries, in order. */
  function LowerAll(es: seq<string>): (r: seq<string>)
    ensures |r| == |es| && forall i :: 0 <= i < |es| ==> r[i] == ToLower(es[i])
  {
    seq(|es|, i requires 0 <= i < |es| => ToLower(es[i]))
  }

  lemma LowerEntry(e: string)
    requires IsEntry(e)
    ensures IsEntry(ToLower(e)) && ToLower(ToLower(e)) == ToLower(e)
  {
    LowerNoEdgeSpace(e);
    ToLowerIdempotent(e);
  }

  /** The bcc list of reportsBuildMailtoUrl_: the entries lower-cased,
      each kept at its first occurrence. */
  function MailtoEmails(raw: Cell): seq<string> {
    Uniq(LowerAll(SplitEmails(raw)))
  }

  /** The bcc list is lower case and free of duplicates, holds exactly the
      lower-cased entries, and reads back through SplitEmails unchanged
      once joined with commas. */
  lemma MailtoEmailsMeaning(raw: Cell)
    ensures var r := MailtoEmails(raw);
      Distinct(r)
      && (forall i :: 0 <= i < |r| ==> IsEntry(r[i]) && ToLower(r[i]) == r[i])
      && (forall x :: x in r <==> x in LowerAll(SplitEmails(raw)))
      && (r != [] ==> SplitEmails(Text(Join(r, ","))) == r)
  {
    var es := SplitEmails(raw);
    var lows := LowerAll(es);
    var r := Uniq(lows);
    UniqDistinct(lows);
    forall i | 0 <= i < |lows| ensures IsEntry(lows[i]) && ToLower(lows[i]) == lows[i] {
      LowerEntry(es[i]);
    }
    forall x ensures x in r <==> x in lows {
      UniqHas(lows, x);
    }
    forall i | 0 <= i < |r| ensures IsEntry(r[i]) && ToLower(r[i]) == r[i] {
      assert r[i] in lows;
    }
    if r != [] {
      SplitEmailsOfJoin(r);
    }
  }

  /** reportsBuildMailtoUrl_, with encodeURIComponent as enc. */
  function MailtoUrl(raw: Cell, subject: string, enc: string -> string): string {
    var emails := MailtoEmails(raw);
    if emails == [] then ""
    else "mailto:?bcc=" + enc(Join(emails, ",")) + "&subject=" + enc(if subject == "" then "School update" else subject)
  }

  /** No link exactly when the text holds no email entry. */
  lemma MailtoUrlEmpty(raw: Cell, subject: string, enc: string -> string)
    ensures MailtoUrl(raw, subject, enc) == "" <==> SplitEmails(raw) == []
  {
    var es := SplitEmails(raw);
    MailtoEmailsMeaning(raw);
    if es != [] {
      assert LowerAll(es)[0] in MailtoEmails(raw);
      assert MailtoUrl(raw, subject, enc)[0] == 'm';
    }
  }

  // ------------------------------------------------------- recipients

  /** Two addresses that differ only in letter case. */
  predicate SameEmail(a: string, b: string) { ToLower(a) == ToLower(b) }

  /** list.some(e => e.toLowerCase() === x.toLowerCase()). */
  predicate HasEmail(list: seq<string>, x: string)
    decreases |list|
  {
    list != [] && (HasEmail(list[..|list| - 1], x) || SameEmail(list[|list| - 1], x))
  }

  predicate CaseDistinct(list: seq<string>) {
    forall i, j :: 0 <= i < j < |list| ==> !SameEmail(list[i], list[j])
  }

  /** emails.forEach(e => { if (!list.some(...)) list.push(e) }): each
      address is added unless one equal to it up to case is present. */
  function AddEmails(list: seq<string>, emails: seq<string>): (r: seq<string>)
    ensures |list| <= |r| && r[..|list|] == list
    decreases |emails|
  {
    if emails == [] then list
    else
      var p := AddEmails(list, emails[..|emails| - 1]);
      var x := emails[|emails| - 1];
      if HasEmail(p, x) then p else p + [x]
  }

  lemma HasEmailSnoc(list: seq<string>, y: string, x: string)
    ensures HasEmail(list + [y], x) <==> HasEmail(list, x) || SameEmail(y, x)
  {
    assert (list + [y])[..|list|] == list;
  }

  lemma {:induction false} HasEmailAt(list: seq<string>, x: string)
    ensures HasEmail(list, x) <==> exists j :: 0 <= j < |list| && SameEmail(list[j], x)
    decreases |list|
  {
    if list != [] {
      var n := |list| - 1;
      HasEmailAt(list[..n], x);
      assert forall j :: 0 <= j < n ==> list[..n][j] == list[j];
    }
  }

  lemma {:induction false} AddEmailsConcat(list: seq<string>, a: seq<string>, b: seq<string>)
    ensures AddEmails(AddEmails(list, a), b) == AddEmails(list, a + b)
    decreases |b|
  {
    if b == [] {
      assert a + b == a;
    } else {
      var n := |b| - 1;
      AddEmailsConcat(list, a, b[..n]);
      assert (a + b)[..|a + b| - 1] == a + b[..n];
      assert (a + b)[|a + b| - 1] == b[n];
    }
  }

  /** The result holds an address equal up to case to x exactly when the
      list or the new addresses do. */
  lemma {:induction false} AddEmailsHas(list: seq<string>, emails: seq<string>, x: string)
    ensures HasEmail(AddEmails(list, emails), x) <==> HasEmail(list, x) || HasEmail(emails, x)
    decreases |emails|
  {
    if emails != [] {
      var n := |emails| - 1;
      var p := AddEmails(list, emails[..n]);
      AddEmailsHas(list, emails[..n], x);
      if !HasEmail(p, emails[n]) {
        HasEmailSnoc(p, emails[n], x);
      } else if SameEmail(emails[n], x) {
        assert HasEmail(p, x) by {
          HasEmailAt(p, emails[n]);
          HasEmailAt(p, x);
        }
      }
    }
  }

  /** No two entries of the result are equal up to case. */
  lemma {:induction false} AddEmailsDistinct(list: seq<string>, emails: seq<string>)
    requires CaseDistinct(list)
    ensures CaseDistinct(AddEmails(list, emails))
    decreases |emails|
  {
    if emails != [] {
      var n := |emails| - 1;
      var p := AddEmails(list, emails[..n]);
      AddEmailsDistinct(list, emails[..n]);
      if !HasEmail(p, emails[n]) {
        HasEmailAt(p, emails[n]);
      }
    }
  }

  /** Every entry of the result is one of the list's or of the new
      addresses, spelt as given. */
  lemma {:induction false} AddEmailsFrom(list: seq<string>, emails: seq<string>, y: string)
    requires y in AddEmails(list, emails)
    ensures y in list || y in emails
    decreases |emails|
  {
    if emails != [] {
      var n := |emails| - 1;
      var p := AddEmails(list, emails[..n]);
      if y in p {
        AddEmailsFrom(list, emails[..n], y);
        assert emails[..n] <= emails;
      }
    }
  }

  /** The recipients map of getReportMailingListRecipients_. lists holds
      one array per school key; aliases sends a school label to the key
      whose array it shares, so later additions under the key show under
      the label as well. */
  datatype Recipients = Recipients(lists: map<string, seq<string>>, aliases: map<string, string>)

  const NoRecipients := Recipients(map[], map[])

  /** recipientsBySchool[name] || []. */
  function Lookup(m: Recipients, name: string): seq<string> {
    if name in m.lists then m.lists[name]
    else if name in m.aliases && m.aliases[name] in m.lists then m.lists[m.aliases[name]]
    else []
  }

  function ListOf(lists: map<string, seq<string>>, k: string): seq<string> {
    if k in lists then lists[k] else []
  }

  function RowKey(row: Row, iS: nat): string { NormalizeSchool(At(row, iS)) }
  function RowLabel(row: Row, iS: nat): string { CellText(At(row, iS)) }
  function RowEmails(row: Row, iE: nat): seq<string> { SplitEmails(At(row, iE)) }

  /** One row of the mailing-list tab: skipped without a school key or
      without addresses; otherwise its addresses join the key's array,
      and the trimmed label, when nothing is stored under it yet, is
      made to share that array. */
  function AddRecipientsRow(m: Recipients, row: Row, iS: nat, iE: nat): Recipients {
    var key := RowKey(row, iS);
    var emails := RowEmails(row, iE);
    if key == "" || emails == [] then m
    else Store(m, key, RowLabel(row, iS), emails)
  }

  function Store(m: Recipients, key: string, lab: string, emails: seq<string>): Recipients {
    var lists := m.lists[key := AddEmails(ListOf(m.lists, key), emails)];
    if lab != "" && lab !in lists && lab !in m.aliases
    then Recipients(lists, m.aliases[lab := key])
    else Recipients(lists, m.aliases)
  }

  function RecipientsFrom(rows: seq<Row>, iS: nat, iE: nat): Recipients
    decreases |rows|
  {
    if rows == [] then NoRecipients
    else AddRecipientsRow(RecipientsFrom(rows[..|rows| - 1], iS, iE), rows[|rows| - 1], iS, iE)
  }

  /** header.indexOf(name). */
  function IndexOf(keys: seq<string>, name: string): Option<nat> {
    First(keys, k => k == name)
  }

  function NormalizedHeader(header: Row): (r: seq<string>)
    ensures |r| == |header| && forall i :: 0 <= i < |header| ==> r[i] == Normalize(header[i])
  {
    seq(|header|, i requires 0 <= i < |header| => Normalize(header[i]))
  }

  /** The email column: "email", else "emailaddress". */
  function EmailColumn(keys: seq<string>): Option<nat> {
    if IndexOf(keys, "email").Some? then IndexOf(keys, "email") else IndexOf(keys, "emailaddress")
  }

  /** getReportMailingListRecipients_ on the ReportMailingList tab (None
      when the tab is missing): no recipients without a data row or
      without a school and an email column. */
  function LoadRecipients(values: Option<seq<Row>>): Recipients {
    if values.None? || |values.value| < 2 then NoRecipients
    else
      var keys := NormalizedHeader(values.value[0]);
      var iS := IndexOf(keys, "school");
      var iE := EmailColumn(keys);
      if iS.None? || iE.None? then NoRecipients
      else RecipientsFrom(values.value[1..], iS.value, iE.value)
  }

  /** All addresses the rows give for school key k, in row order. */
  function EmailsFor(rows: seq<Row>, iS: nat, iE: nat, k: string): seq<string>
    decreases |rows|
  {
    if rows == [] then []
    else
      var row := rows[|rows| - 1];
      EmailsFor(rows[..|rows| - 1], iS, iE, k) + (if k != "" && RowKey(row, iS) == k then RowEmails(row, iE) else [])
  }

  /** Some row carries the school label L and at least one address. */
  predicate HasLabel(rows: seq<Row>, iS: nat, iE: nat, L: string)
    decreases |rows|
  {
    if rows == [] then false
    else
      var row := rows[|rows| - 1];
      HasLabel(rows[..|rows| - 1], iS, iE, L)
      || (RowLabel(row, iS) == L && RowKey(row, iS) != "" && RowEmails(row, iE) != [])
  }

  /** The shape the map keeps: keys are trimmed lower-case school keys
      with a non-empty array free of case duplicates; an alias is a label
      that differs from its own key, and sends it to that key. */
  ghost predicate WellFormed(m: Recipients) {
    (forall k :: k in m.lists ==> GoodKey(k) && GoodList(m.lists[k]))
    && (forall L :: L in m.aliases ==> m.aliases[L] == ToLower(L) && ToLower(L) != L && ToLower(L) in m.lists)
  }

  predicate GoodKey(k: string) { k != "" && ToLower(k) == k }

  predicate GoodList(l: seq<string>) { l != [] && CaseDistinct(l) && AllEntries(l) }

  predicate AllEntries(xs: seq<string>) {
    forall i :: 0 <= i < |xs| ==> IsEntry(xs[i])
  }

  lemma AddEmailsEntries(list: seq<string>, emails: seq<string>)
    requires AllEntries(list) && AllEntries(emails)
    ensures AllEntries(AddEmails(list, emails))
  {
    var r := AddEmails(list, emails);
    forall i | 0 <= i < |r| ensures IsEntry(r[i]) {
      AddEmailsFrom(list, emails, r[i]);
    }
  }

  lemma LabelKey(row: Row, iS: nat)
    ensures RowKey(row, iS) == ToLower(RowLabel(row, iS))
  {
  }

  lemma WellFormedStep(m: Recipients, row: Row, iS: nat, iE: nat)
    requires WellFormed(m)
    ensures WellFormed(AddRecipientsRow(m, row, iS, iE))
  {
    var key := RowKey(row, iS);
    var emails := RowEmails(row, iE);
    if key != "" && emails != [] {
      LabelKey(row, iS);
      StoreWellFormed(m, key, RowLabel(row, iS), emails);
    }
  }

  lemma StoreWellFormed(m: Recipients, key: string, lab: string, emails: seq<string>)
    requires WellFormed(m) && key != "" && ToLower(key) == key && key == ToLower(lab) && emails != []
    requires AllEntries(emails)
    ensures WellFormed(Store(m, key, lab, emails))
  {
    var old_ := ListOf(m.lists, key);
    AddEmailsGood(old_, emails);
    var lists := m.lists[key := AddEmails(old_, emails)];
    assert forall k :: k in lists ==> GoodKey(k) && GoodList(lists[k]);
  }

  lemma AddEmailsGood(list: seq<string>, emails: seq<string>)
    requires list == [] || GoodList(list)
    requires emails != [] && AllEntries(emails)
    ensures GoodList(AddEmails(list, emails))
  {
    AddEmailsDistinct(list, emails);
    AddEmailsEntries(list, emails);
    AddEmailsHas(list, emails, emails[0]);
    HasEmailAt(emails, emails[0]);
  }

  lemma {:induction false} RecipientsWellFormed(rows: seq<Row>, iS: nat, iE: nat)
    ensures WellFormed(RecipientsFrom(rows, iS, iE))
    decreases |rows|
  {
    if rows != [] {
      var n := |rows| - 1;
      RecipientsWellFormed(rows[..n], iS, iE);
      WellFormedStep(RecipientsFrom(rows[..n], iS, iE), rows[n], iS, iE);
    }
  }

  /** One row adds its addresses to its own key's array and to no other. */
  lemma RowStepList(m: Recipients, row: Row, iS: nat, iE: nat, k: string)
    ensures ListOf(AddRecipientsRow(m, row, iS, iE).lists, k)
         == if k != "" && RowKey(row, iS) == k then AddEmails(ListOf(m.lists, k), RowEmails(row, iE)) else ListOf(m.lists, k)
    ensures k in AddRecipientsRow(m, row, iS, iE).lists
         <==> k in m.lists || (k != "" && RowKey(row, iS) == k && RowEmails(row, iE) != [])
  {
  }

  /** Under each school key sits every address the rows give for it, in
      row order, less those equal up to case to an earlier one. */
  lemma {:induction false} RecipientsLists(rows: seq<Row>, iS: nat, iE: nat, k: string)
    ensures ListOf(RecipientsFrom(rows, iS, iE).lists, k) == AddEmails([], EmailsFor(rows, iS, iE, k))
    decreases |rows|
  {
    if rows != [] {
      var n := |rows| - 1;
      var row := rows[n];
      RecipientsLists(rows[..n], iS, iE, k);
      RowStepList(RecipientsFrom(rows[..n], iS, iE), row, iS, iE, k);
      var pre := EmailsFor(rows[..n], iS, iE, k);
      if k != "" && RowKey(row, iS) == k {
        AddEmailsConcat([], pre, RowEmails(row, iE));
      } else {
        assert pre + [] == pre;
      }
    }
  }

  /** A school key is present exactly when some row gives it an address. */
  lemma {:induction false} RecipientsKeys(rows: seq<Row>, iS: nat, iE: nat, k: string)
    ensures k in RecipientsFrom(rows, iS, iE).lists <==> k != "" && EmailsFor(rows, iS, iE, k) != []
    decreases |rows|
  {
    if rows != [] {
      var n := |rows| - 1;
      RecipientsKeys(rows[..n], iS, iE, k);
      RowStepList(RecipientsFrom(rows[..n], iS, iE), rows[n], iS, iE, k);
      var pre := EmailsFor(rows[..n], iS, iE, k);
      if !(k != "" && RowKey(rows[n], iS) == k) {
        assert pre + [] == pre;
      }
    }
  }

  /** Keys and aliases, once stored, stay. */
  lemma StoreGrows(m: Recipients, key: string, lab: string, emails: seq<string>, L: string)
    requires L in m.lists || L in m.aliases
    ensures L in Store(m, key, lab, emails).lists || L in Store(m, key, lab, emails).aliases
  {
  }

  lemma {:induction false} LabelStored(rows: seq<Row>, iS: nat, iE: nat, L: string)
    requires HasLabel(rows, iS, iE, L)
    ensures L in RecipientsFrom(rows, iS, iE).lists || L in RecipientsFrom(rows, iS, iE).aliases
    decreases |rows|
  {
    var n := |rows| - 1;
    var m := RecipientsFrom(rows[..n], iS, iE);
    var row := rows[n];
    if HasLabel(rows[..n], iS, iE, L) {
      LabelStored(rows[..n], iS, iE, L);
      StoreGrows(m, RowKey(row, iS), RowLabel(row, iS), RowEmails(row, iE), L);
    }
  }

  /** A school label some row carries finds the same array as its key. */
  lemma RecipientsByLabel(rows: seq<Row>, iS: nat, iE: nat, L: string)
    requires HasLabel(rows, iS, iE, L)
    ensures Lookup(RecipientsFrom(rows, iS, iE), L) == ListOf(RecipientsFrom(rows, iS, iE).lists, ToLower(L))
  {
    LabelStored(rows, iS, iE, L);
    RecipientsWellFormed(rows, iS, iE);
  }

  /** What a key's array holds: no two addresses equal up to case, an
      address up to case exactly when the rows give it, each spelt as the
      first row that gave it. */
  lemma FirstSpellings(xs: seq<string>, x: string)
    ensures CaseDistinct(AddEmails([], xs))
    ensures HasEmail(AddEmails([], xs), x) <==> HasEmail(xs, x)
    ensures x in AddEmails([], xs) ==> x in xs
  {
    AddEmailsDistinct([], xs);
    AddEmailsHas([], xs, x);
    if x in AddEmails([], xs) {
      AddEmailsFrom([], xs, x);
    }
  }

  /** The emails.forEach loop of getReportMailingListRecipients_. */
  method MergeEmails(list: seq<string>, emails: seq<string>) returns (r: seq<string>)
    ensures r == AddEmails(list, emails)
  {
    r := list;
    var i := 0;
    while i < |emails|
      invariant i <= |emails|
      invariant r == AddEmails(list, emails[..i])
    {
      assert emails[..i + 1][..i] == emails[..i];
      if !HasEmail(r, emails[i]) {
        r := r + [emails[i]];
      }
      i := i + 1;
    }
    assert emails[..i] == emails;
  }

  /** getReportMailingListRecipients_ on the ReportMailingList tab. */
  method ReadRecipients(values: Option<seq<Row>>) returns (m: Recipients)
    ensures m == LoadRecipients(values)
  {
    m := NoRecipients;
    if values.None? || |values.value| < 2 {
      return;
    }
    var keys := NormalizedHeader(values.value[0]);
    var iS := IndexOf(keys, "school");
    var iE := EmailColumn(keys);
    if iS.None? || iE.None? {
      return;
    }
    m := ReadRecipientRows(values.value[1..], iS.value, iE.value);
  }

  lemma RecipientsSnoc(rows: seq<Row>, i: nat, iS: nat, iE: nat)
    requires i < |rows|
    ensures RecipientsFrom(rows[..i + 1], iS, iE) == AddRecipientsRow(RecipientsFrom(rows[..i], iS, iE), rows[i], iS, iE)
  {
    assert rows[..i + 1][..i] == rows[..i];
  }

  /** One row's additions: its addresses, then the label alias. */
  method StoreRow(m: Recipients, key: string, school: string, emails: seq<string>) returns (r: Recipients)
    ensures r == Store(m, key, school, emails)
  {
    var list := MergeEmails(ListOf(m.lists, key), emails);
    var lists := m.lists[key := list];
    if school != "" && school !in lists && school !in m.aliases {
      r := Recipients(lists, m.aliases[school := key]);
    } else {
      r := Recipients(lists, m.aliases);
    }
  }

  /** The row loop of getReportMailingListRecipients_. */
  method ReadRecipientRows(rows: seq<Row>, iS: nat, iE: nat) returns (m: Recipients)
    ensures m == RecipientsFrom(rows, iS, iE)
  {
    m := NoRecipients;
    var i := 0;
    while i < |rows|
      invariant i <= |rows|
      invariant m == RecipientsFrom(rows[..i], iS, iE)
    {
      RecipientsSnoc(rows, i, iS, iE);
      var key := RowKey(rows[i], iS);
      var emails := RowEmails(rows[i], iE);
      if key != "" && emails != [] {
        m := StoreRow(m, key, RowLabel(rows[i], iS), emails);
      }
      i := i + 1;
    }
    assert rows[..i] == rows;
  }

  /** recipientsBySchool[name], undefined as None. */
  function Get(m: Recipients, name: string): Option<seq<string>> {
    if name in m.lists then Some(m.lists[name])
    else if name in m.aliases && m.aliases[name] in m.lists then Some(m.lists[m.aliases[name]])
    else None
  }

  /** The recipients of one school's report: the forced group's list when
      a group is forced, else the list under the school's key, else the
      one under its label, else none. */
  function RecipientsFor(m: Recipients, forceKey: string, schoolName: string): seq<string> {
    if forceKey != "" then Lookup(m, forceKey)
    else
      var byKey := Get(m, NormalizeSchool(Text(schoolName)));
      if byKey.Some? then byKey.value else Lookup(m, schoolName)
  }

  // ---------------------------------------------------------- grouping

  // The fixed columns of the reports tab (0-based).
  const ColFirst := 1
  const ColLast := 2
  const ColSchool := 3
  const ColGrade := 4
  const ColIndividual := 5
  const ColGroup := 6

  /** The options of generateAllSchoolAttendancePdfs: onlySchools when it
      is an array, the recipients group to force, and whether to mail. */
  datatype Options = Options(onlySchools: Option<seq<Cell>>, forceRecipients: Cell, skipEmail: bool)

  /** The forced recipients key, "" when none. */
  function ForceKey(o: Options): string { NormalizeSchool(o.forceRecipients) }

  /** The non-blank normalised keys of a school list. */
  function SchoolKeys(cs: seq<Cell>): (r: seq<string>)
    ensures forall i :: 0 <= i < |r| ==> r[i] != ""
    decreases |cs|
  {
    if cs == [] then []
    else
      var k := NormalizeSchool(cs[|cs| - 1]);
      SchoolKeys(cs[..|cs| - 1]) + (if k == "" then [] else [k])
  }

  /** Some school of the list normalises to x. */
  predicate Listed(cs: seq<Cell>, x: string)
    decreases |cs|
  {
    if cs == [] then false
    else Listed(cs[..|cs| - 1], x) || NormalizeSchool(cs[|cs| - 1]) == x
  }

  /** The filter keeps the key of each listed school, and nothing else. */
  lemma {:induction false} SchoolKeysHas(cs: seq<Cell>, x: string)
    ensures x in SchoolKeys(cs) <==> x != "" && Listed(cs, x)
    decreases |cs|
  {
    if cs != [] {
      SchoolKeysHas(cs[..|cs| - 1], x);
    }
  }

  lemma {:induction false} ListedAt(cs: seq<Cell>, i: nat)
    requires i < |cs|
    ensures Listed(cs, NormalizeSchool(cs[i]))
    decreases |cs|
  {
    if i < |cs| - 1 {
      ListedAt(cs[..|cs| - 1], i);
      assert cs[..|cs| - 1][i] == cs[i];
    }
  }

  /** The set of school keys to keep, None for every school; forcing a
      recipients group drops the filter. */
  function SchoolFilter(o: Options): Option<seq<string>> {
    if ForceKey(o) != "" then None
    else if o.onlySchools.None? then None
    else Some(SchoolKeys(o.onlySchools.value))
  }

  /** row[4] || "Unknown", as an object key. */
  function GradeKey(c: Cell): (r: string)
    ensures r != ""
  {
    if Truthy(c) then StrOf(c) else "Unknown"
  }

  lemma GradeKeyNotEmpty(c: Cell)
    ensures GradeKey(c) != ""
  {
    match c
    case Text(s) =>
    case Num(n) =>
      assert IntToString(n) != "";
    case Flag(b) =>
    case When(d, _) =>
  }

  /** A row counts for school key k: it has a key and passes the filter. */
  predicate Selected(row: Row, filter: Option<seq<string>>) {
    var k := RowKey(row, ColSchool);
    k != "" && (filter.None? || k in filter.value)
  }

  /** One school's rows by grade key, keys in first-seen order. */
  datatype SchoolGroup = SchoolGroup(name: string, gradeKeys: seq<string>, grades: map<string, seq<Row>>)

  /** bySchool: school keys in first-seen order and each school's group. */
  datatype Grouping = Grouping(order: seq<string>, schools: map<string, SchoolGroup>)

  function RowsUnder(grades: map<string, seq<Row>>, gk: string): seq<Row> {
    if gk in grades then grades[gk] else []
  }

  function AddRow(sg: SchoolGroup, gk: string, row: Row): SchoolGroup {
    SchoolGroup(sg.name,
                if gk in sg.grades then sg.gradeKeys else sg.gradeKeys + [gk],
                sg.grades[gk := RowsUnder(sg.grades, gk) + [row]])
  }

  /** One pass of the grouping loop of generateAllSchoolAttendancePdfs. */
  function AddToGroup(g: Grouping, row: Row, filter: Option<seq<string>>): Grouping {
    if !Selected(row, filter) then g
    else Place(g, RowKey(row, ColSchool), RowLabel(row, ColSchool), GradeKey(At(row, ColGrade)), row)
  }

  /** The row joins grade gk of school key, the school created on first
      sight under its trimmed text (or "Unknown"). */
  function Place(g: Grouping, key: string, school: string, gk: string, row: Row): Grouping {
    var sg := if key in g.schools then g.schools[key]
              else SchoolGroup(if school == "" then "Unknown" else school, [], map[]);
    Grouping(if key in g.schools then g.order else g.order + [key],
             g.schools[key := AddRow(sg, gk, row)])
  }

  function GroupAll(rows: seq<Row>, filter: Option<seq<string>>): Grouping
    decreases |rows|
  {
    if rows == [] then Grouping([], map[])
    else AddToGroup(GroupAll(rows[..|rows| - 1], filter), rows[|rows| - 1], filter)
  }

  /** The selected rows of school key k and grade key gk, in sheet order. */
  function RowsOf(rows: seq<Row>, filter: Option<seq<string>>, k: string, gk: string): seq<Row>
    decreases |rows|
  {
    if rows == [] then []
    else
      var row := rows[|rows| - 1];
      RowsOf(rows[..|rows| - 1], filter, k, gk)
        + (if Selected(row, filter) && RowKey(row, ColSchool) == k && GradeKey(At(row, ColGrade)) == gk then [row] else [])
  }

  /** Some selected row has school key k. */
  predicate HasSchool(rows: seq<Row>, filter: Option<seq<string>>, k: string)
    decreases |rows|
  {
    if rows == [] then false
    else
      var row := rows[|rows| - 1];
      HasSchool(rows[..|rows| - 1], filter, k) || (Selected(row, filter) && RowKey(row, ColSchool) == k)
  }

  /** The trimmed school text of the first selected row with key k. */
  function FirstLabel(rows: seq<Row>, filter: Option<seq<string>>, k: string): Option<string>
    decreases |rows|
  {
    if rows == [] then None
    else
      var row := rows[|rows| - 1];
      var pre := FirstLabel(rows[..|rows| - 1], filter, k);
      if pre.Some? then pre
      else if Selected(row, filter) && RowKey(row, ColSchool) == k then Some(RowLabel(row, ColSchool))
      else None
  }

  /** The grouping keeps its shape: the key order lists each present key
      once, and each school's grade-key order lists each grade key once. */
  ghost predicate GroupShape(g: Grouping) {
    (forall k :: k in g.order <==> k in g.schools)
    && (forall i, j :: 0 <= i < j < |g.order| ==> g.order[i] != g.order[j])
    && (forall k :: k in g.schools ==> SchoolShape(g.schools[k]))
  }

  ghost predicate SchoolShape(sg: SchoolGroup) {
    (forall gk :: gk in sg.gradeKeys <==> gk in sg.grades)
    && (forall gk :: gk in sg.grades ==> sg.grades[gk] != [])
    && (forall i, j :: 0 <= i < j < |sg.gradeKeys| ==> sg.gradeKeys[i] != sg.gradeKeys[j])
  }

  lemma AddRowShape(sg: SchoolGroup, gk: string, row: Row)
    requires SchoolShape(sg)
    ensures SchoolShape(AddRow(sg, gk, row))
  {
  }

  lemma PlaceShape(g: Grouping, key: string, school: string, gk: string, row: Row)
    requires GroupShape(g)
    ensures GroupShape(Place(g, key, school, gk, row))
  {
    var sg := if key in g.schools then g.schools[key]
              else SchoolGroup(if school == "" then "Unknown" else school, [], map[]);
    assert SchoolShape(sg);
    AddRowShape(sg, gk, row);
    var schools := g.schools[key := AddRow(sg, gk, row)];
    assert forall k :: k in schools ==> SchoolShape(schools[k]);
    if key !in g.schools {
      OrderSnoc(g.order, key);
    }
  }

  lemma OrderSnoc(order: seq<string>, key: string)
    requires key !in order
    requires forall i, j :: 0 <= i < j < |order| ==> order[i] != order[j]
    ensures forall i, j :: 0 <= i < j < |order + [key]| ==> (order + [key])[i] != (order + [key])[j]
  {
  }

  lemma {:induction false} GroupAllShape(rows: seq<Row>, filter: Option<seq<string>>)
    ensures GroupShape(GroupAll(rows, filter))
    decreases |rows|
  {
    if rows != [] {
      GroupAllShape(rows[..|rows| - 1], filter);
      var row := rows[|rows| - 1];
      if Selected(row, filter) {
        PlaceShape(GroupAll(rows[..|rows| - 1], filter), RowKey(row, ColSchool), RowLabel(row, ColSchool), GradeKey(At(row, ColGrade)), row);
      }
    }
  }

  function GradesOf(g: Grouping, k: string, gk: string): seq<Row> {
    if k in g.schools then RowsUnder(g.schools[k].grades, gk) else []
  }

  function NameOf(g: Grouping, k: string): Option<string> {
    if k in g.schools then Some(g.schools[k].name) else None
  }

  /** label: school || "Unknown". */
  function Shown(o: Option<string>): Option<string> {
    if o.None? then None else Some(if o.value == "" then "Unknown" else o.value)
  }

  lemma PlaceAt(g: Grouping, key: string, school: string, gk: string, row: Row, k: string, gk2: string)
    ensures k in Place(g, key, school, gk, row).schools <==> k in g.schools || k == key
    ensures GradesOf(Place(g, key, school, gk, row), k, gk2)
         == GradesOf(g, k, gk2) + (if k == key && gk2 == gk then [row] else [])
    ensures NameOf(Place(g, key, school, gk, row), k)
         == if k in g.schools then NameOf(g, k) else if k == key then Shown(Some(school)) else None
  {
  }

  lemma AddToGroupAt(g: Grouping, row: Row, filter: Option<seq<string>>, k: string, gk: string)
    ensures k in AddToGroup(g, row, filter).schools <==> k in g.schools || (Selected(row, filter) && RowKey(row, ColSchool) == k)
    ensures GradesOf(AddToGroup(g, row, filter), k, gk) == GradesOf(g, k, gk)
         + (if Selected(row, filter) && RowKey(row, ColSchool) == k && GradeKey(At(row, ColGrade)) == gk then [row] else [])
    ensures NameOf(AddToGroup(g, row, filter), k)
         == if k in g.schools then NameOf(g, k)
            else if Selected(row, filter) && RowKey(row, ColSchool) == k then Shown(Some(RowLabel(row, ColSchool)))
            else None
  {
    if Selected(row, filter) {
      PlaceAt(g, RowKey(row, ColSchool), RowLabel(row, ColSchool), GradeKey(At(row, ColGrade)), row, k, gk);
    } else {
      assert GradesOf(g, k, gk) + [] == GradesOf(g, k, gk);
    }
  }

  /** A school appears exactly when some selected row carries its key;
      its rows of each grade are the selected rows of that school and
      grade in sheet order; it is labelled with the trimmed text of the
      first such row ("Unknown" if blank). */
  lemma {:induction false} GroupAllMeaning(rows: seq<Row>, filter: Option<seq<string>>, k: string, gk: string)
    ensures k in GroupAll(rows, filter).schools <==> HasSchool(rows, filter, k)
    ensures GradesOf(GroupAll(rows, filter), k, gk) == RowsOf(rows, filter, k, gk)
    ensures NameOf(GroupAll(rows, filter), k) == Shown(FirstLabel(rows, filter, k))
    decreases |rows|
  {
    if rows != [] {
      var n := |rows| - 1;
      GroupAllMeaning(rows[..n], filter, k, gk);
      AddToGroupAt(GroupAll(rows[..n], filter), rows[n], filter, k, gk);
      HasSchoolNamed(rows[..n], filter, k);
    }
  }

  lemma {:induction false} HasSchoolNamed(rows: seq<Row>, filter: Option<seq<string>>, k: string)
    ensures HasSchool(rows, filter, k) <==> FirstLabel(rows, filter, k).Some?
    decreases |rows|
  {
    if rows != [] {
      HasSchoolNamed(rows[..|rows| - 1], filter, k);
    }
  }

  /** Every school of the grouping has a non-blank key the filter lets
      through. */
  lemma {:induction false} GroupedSelected(rows: seq<Row>, filter: Option<seq<string>>, k: string)
    requires HasSchool(rows, filter, k)
    ensures k != "" && (filter.None? || k in filter.value)
    decreases |rows|
  {
    if !(Selected(rows[|rows| - 1], filter) && RowKey(rows[|rows| - 1], ColSchool) == k) {
      GroupedSelected(rows[..|rows| - 1], filter, k);
    }
  }

  /** The grouping loop, row by row. */
  method GroupRows(rows: seq<Row>, filter: Option<seq<string>>) returns (g: Grouping)
    ensures g == GroupAll(rows, filter)
  {
    g := Grouping([], map[]);
    var i := 0;
    while i < |rows|
      invariant i <= |rows|
      invariant g == GroupAll(rows[..i], filter)
    {
      assert rows[..i + 1][..i] == rows[..i];
      var row := rows[i];
      var key := RowKey(row, ColSchool);
      if key != "" && (filter.None? || key in filter.value) {
        g := PlaceRow(g, key, RowLabel(row, ColSchool), GradeKey(At(row, ColGrade)), row);
      }
      i := i + 1;
    }
    assert rows[..i] == rows;
  }

  /** bySchool[key] created on first sight, then the row pushed under its
      grade key. */
  method PlaceRow(g: Grouping, key: string, school: string, gk: string, row: Row) returns (r: Grouping)
    ensures r == Place(g, key, school, gk, row)
  {
    var order := g.order;
    var sg: SchoolGroup;
    if key in g.schools {
      sg := g.schools[key];
    } else {
      sg := SchoolGroup(if school == "" then "Unknown" else school, [], map[]);
      order := order + [key];
    }
    var keys := sg.gradeKeys;
    if gk !in sg.grades {
      keys := keys + [gk];
    }
    r := Grouping(order, g.schools[key := SchoolGroup(sg.name, keys, sg.grades[gk := RowsUnder(sg.grades, gk) + [row]])]);
  }

  // ------------------------------------------------------------ orders

  /** A canonical array index ("0", or digits without a leading zero,
      below 2^32 - 1): object keys of this form are listed first. */
  predicate IsIndexKey(s: string) {
    s != [] && AllDigits(s) && (|s| == 1 || s[0] != '0') && DigitsValue(s) < 0xFFFF_FFFF
  }

  function IndexKeys(ks: seq<string>): (r: seq<string>)
    ensures forall i :: 0 <= i < |r| ==> IsIndexKey(r[i])
  {
    if ks == [] then []
    else (if IsIndexKey(ks[0]) then [ks[0]] else []) + IndexKeys(ks[1..])
  }

  function NamedKeys(ks: seq<string>): (r: seq<string>)
    ensures forall i :: 0 <= i < |r| ==> !IsIndexKey(r[i])
  {
    if ks == [] then []
    else (if IsIndexKey(ks[0]) then [] else [ks[0]]) + NamedKeys(ks[1..])
  }

  lemma {:induction false} KeysSplit(ks: seq<string>)
    ensures multiset(IndexKeys(ks)) + multiset(NamedKeys(ks)) == multiset(ks)
  {
    if ks != [] {
      KeysSplit(ks[1..]);
      assert ks == [ks[0]] + ks[1..];
    }
  }

  function IndexValue(s: string): nat {
    if IsIndexKey(s) then DigitsValue(s) else 0
  }

  predicate IndexLe(a: string, b: string) { IndexValue(a) <= IndexValue(b) }

  /** Object.keys order: array-index keys in ascending numeric order, then
      the other keys in insertion order. */
  function ObjectKeys(ks: seq<string>): seq<string> {
    SortBy(IndexKeys(ks), IndexLe) + NamedKeys(ks)
  }

  /** The listed keys are the inserted ones. */
  lemma ObjectKeysPermutation(ks: seq<string>)
    ensures multiset(ObjectKeys(ks)) == multiset(ks)
    ensures forall x :: x in ObjectKeys(ks) <==> x in ks
  {
    var r := ObjectKeys(ks);
    KeysSplit(ks);
    forall x ensures x in r <==> x in ks {
      assert x in r <==> x in multiset(r);
      assert x in ks <==> x in multiset(ks);
    }
  }

  /** Index keys come first, in ascending numeric order. */
  lemma ObjectKeysIndexFirst(ks: seq<string>)
    ensures forall i, j :: 0 <= i < j < |ObjectKeys(ks)| && IsIndexKey(ObjectKeys(ks)[j]) ==>
      IsIndexKey(ObjectKeys(ks)[i]) && DigitsValue(ObjectKeys(ks)[i]) <= DigitsValue(ObjectKeys(ks)[j])
  {
    var idx := SortBy(IndexKeys(ks), IndexLe);
    SortBySorted(IndexKeys(ks), IndexLe);
    forall i | 0 <= i < |idx| ensures IsIndexKey(idx[i]) {
      assert idx[i] in multiset(IndexKeys(ks));
    }
  }

  /** Number(key) || 0. */
  function GradeValue(gk: string): real {
    var n := NumberText(gk);
    if n.Some? then n.value else 0.0
  }

  /** The grade comparator (a, b) => (Number(a) || 0) - (Number(b) || 0). */
  predicate GradeLe(a: string, b: string) { GradeValue(a) <= GradeValue(b) }

  /** The grade keys of one school in the order the report lists them. */
  function GradeOrder(keys: seq<string>): seq<string> {
    SortBy(ObjectKeys(keys), GradeLe)
  }

  /** Grades are listed by value, each grade key once. */
  lemma GradeOrderMeaning(keys: seq<string>)
    ensures SortedBy(GradeOrder(keys), GradeLe)
    ensures multiset(GradeOrder(keys)) == multiset(keys)
  {
    SortBySorted(ObjectKeys(keys), GradeLe);
    ObjectKeysPermutation(keys);
  }

  /** (v || "").toString().toLowerCase() of one name column. */
  function NameKey(row: Row, col: nat): string { ToLower(StrOr(At(row, col))) }

  /** Name pairs (last, first) compared last name first. */
  predicate PairLe(l1: string, f1: string, l2: string, f2: string) {
    StrLt(l1, l2) || (l1 == l2 && StrLe(f1, f2))
  }

  /** The student comparator: last name, then first name, lower-cased and
      in code-unit order. */
  predicate StudentLe(a: Row, b: Row) {
    PairLe(NameKey(a, ColLast), NameKey(a, ColFirst), NameKey(b, ColLast), NameKey(b, ColFirst))
  }

  lemma PairLeTotal(l1: string, f1: string, l2: string, f2: string)
    ensures PairLe(l1, f1, l2, f2) || PairLe(l2, f2, l1, f1)
  {
    StrLeTotal(l1, l2);
    StrLeTotal(f1, f2);
  }

  lemma PairLeTrans(l1: string, f1: string, l2: string, f2: string, l3: string, f3: string)
    requires PairLe(l1, f1, l2, f2) && PairLe(l2, f2, l3, f3)
    ensures PairLe(l1, f1, l3, f3)
  {
    StrLeRefl(l1);
    StrLeRefl(l2);
    StrLeTrans(l1, l2, l3);
    if l1 == l3 && l1 != l2 {
      StrLeAntisym(l1, l2);
    }
    if l1 == l2 && l2 == l3 {
      StrLeTrans(f1, f2, f3);
    }
  }

  lemma StudentLeTotal(a: Row, b: Row)
    ensures StudentLe(a, b) || StudentLe(b, a)
  {
    PairLeTotal(NameKey(a, ColLast), NameKey(a, ColFirst), NameKey(b, ColLast), NameKey(b, ColFirst));
  }

  lemma StudentLeTrans(a: Row, b: Row, c: Row)
    requires StudentLe(a, b) && StudentLe(b, c)
    ensures StudentLe(a, c)
  {
    PairLeTrans(NameKey(a, ColLast), NameKey(a, ColFirst), NameKey(b, ColLast), NameKey(b, ColFirst),
                NameKey(c, ColLast), NameKey(c, ColFirst));
  }

  lemma StudentOrderConsistent()
    ensures TotalPreorder(StudentLe)
  {
    forall a, b ensures StudentLe(a, b) || StudentLe(b, a) {
      StudentLeTotal(a, b);
    }
    forall a, b, c | StudentLe(a, b) && StudentLe(b, c) ensures StudentLe(a, c) {
      StudentLeTrans(a, b, c);
    }
  }

  /** A grade's students as the report lists them: in name order, and just
      the grade's rows. */
  lemma StudentOrderMeaning(rows: seq<Row>)
    ensures SortedBy(SortBy(rows, StudentLe), StudentLe)
    ensures multiset(SortBy(rows, StudentLe)) == multiset(rows)
  {
    StudentOrderConsistent();
    SortBySorted(rows, StudentLe);
  }

  // ----------------------------------------------------------- reports

  /** gradeLabel: named headings for 9 to 12, "Grade <key>" otherwise. */
  function GradeLabel(gk: string): string {
    var n := NumberText(gk);
    if n == Some(9.0) then "9th Grade (Freshman)"
    else if n == Some(10.0) then "10th Grade (Sophomore)"
    else if n == Some(11.0) then "11th Grade (Junior)"
    else if n == Some(12.0) then "12th Grade (Senior)"
    else "Grade " + (if gk == "" then "Unknown" else gk)
  }

  /** A numeric grade key gets the named heading for 9 to 12 and
      "Grade <n>" otherwise. */
  lemma GradeLabelOfNat(n: nat)
    ensures GradeLabel(NatToString(n)) ==
      if n == 9 then "9th Grade (Freshman)"
      else if n == 10 then "10th Grade (Sophomore)"
      else if n == 11 then "11th Grade (Junior)"
      else if n == 12 then "12th Grade (Senior)"
      else "Grade " + NatToString(n)
  {
    NumberTextOfNat(n);
  }

  const TableHeader: Row := [Text("Student"), Text("Individual Attendance (dates)"), Text("Group Attendance (dates)")]

  /** v || "". */
  function OrBlank(c: Cell): Cell { if Truthy(c) then c else Empty }

  /** One table line: `${first} ${last}`, individual and group dates. */
  function TableLine(r: Row): Row {
    [Text(StrOf(At(r, ColFirst)) + " " + StrOf(At(r, ColLast))), OrBlank(At(r, ColIndividual)), OrBlank(At(r, ColGroup))]
  }

  /** One grade of a report: its heading, its students in name order, and
      the table built from them. Each grade after the first starts a new
      page. */
  datatype Section = Section(heading: string, students: seq<Row>, table: seq<Row>)

  /** The table: the header line, then one line per student. */
  function Table(students: seq<Row>): (t: seq<Row>)
    ensures |t| == |students| + 1 && t[0] == TableHeader
    ensures forall i :: 0 <= i < |students| ==> t[i + 1] == TableLine(students[i])
  {
    [TableHeader] + seq(|students|, i requires 0 <= i < |students| => TableLine(students[i]))
  }

  function MakeSection(gk: string, rows: seq<Row>): Section {
    var sorted := SortBy(rows, StudentLe);
    Section(GradeLabel(gk), sorted, Table(sorted))
  }

  /** The grade keys that have rows, in the given order. */
  function FilledGrades(sg: SchoolGroup, ks: seq<string>): (r: seq<string>)
    ensures forall i :: 0 <= i < |r| ==> RowsUnder(sg.grades, r[i]) != []
  {
    if ks == [] then []
    else (if RowsUnder(sg.grades, ks[0]) == [] then [] else [ks[0]]) + FilledGrades(sg, ks[1..])
  }

  /** The sections of a school in grade order, grades without rows skipped. */
  function SectionsOf(sg: SchoolGroup, ks: seq<string>): (r: seq<Section>)
    ensures |r| == |FilledGrades(sg, ks)|
  {
    var fk := FilledGrades(sg, ks);
    seq(|fk|, i requires 0 <= i < |fk| => MakeSection(fk[i], RowsUnder(sg.grades, fk[i])))
  }

  datatype Mail = Mail(bcc: string, subject: string)

  /** One school's output: its name, the PDF file name, the document's
      sections (None when a PDF of that name already exists and is
      reused), and the mail sent, if any. */
  datatype Report = Report(school: string, pdfName: string, sections: Option<seq<Section>>, mail: Option<Mail>)

  function DocName(school: string, today: string): string {
    "Attendance Report - " + school + " - " + today
  }

  /** The mail of one school: none when mailing is skipped or nobody is on
      the list; otherwise a blind copy to every recipient. */
  function MailFor(o: Options, m: Recipients, school: string, today: string): Option<Mail> {
    if o.skipEmail then None
    else
      var to := RecipientsFor(m, ForceKey(o), school);
      if to == [] then None else Some(Mail(Join(to, ","), DocName(school, today)))
  }

  /** One pass of the per-school loop; pdfExists stands for the Drive
      lookup of an existing PDF by name. */
  function SchoolReport(sg: SchoolGroup, o: Options, m: Recipients, today: string, pdfExists: string -> bool): Report {
    var pdf := DocName(sg.name, today) + ".pdf";
    Report(sg.name, pdf,
           if pdfExists(pdf) then None else Some(SectionsOf(sg, GradeOrder(sg.gradeKeys))),
           MailFor(o, m, sg.name, today))
  }

  const NoReportsSheet := "Sheet not found: reports"

  /** The per-school loop over the school keys ks. */
  function ReportsOf(ks: seq<string>, schools: map<string, SchoolGroup>, o: Options, m: Recipients, today: string,
                     pdfExists: string -> bool): (r: seq<Report>)
    requires forall i :: 0 <= i < |ks| ==> ks[i] in schools
    ensures |r| == |ks|
  {
    seq(|ks|, i requires 0 <= i < |ks| => SchoolReport(schools[ks[i]], o, m, today, pdfExists))
  }

  /** generateAllSchoolAttendancePdfs on the reports tab (None when it is
      missing) and the ReportMailingList tab: one report per school, in
      object-key order of the school keys. */
  function Generate(o: Options, values: Option<seq<Row>>, mailing: Option<seq<Row>>, today: string,
                    pdfExists: string -> bool): Result<seq<Report>>
  {
    if values.None? then Err(NoReportsSheet)
    else if |values.value| < 2 then Ok([])
    else
      var g := GroupAll(values.value[1..], SchoolFilter(o));
      if g.order == [] then Ok([])
      else
        var ks := ObjectKeys(g.order);
        GroupAllShape(values.value[1..], SchoolFilter(o));
        ObjectKeysPermutation(g.order);
        Ok(ReportsOf(ks, g.schools, o, LoadRecipients(mailing), today, pdfExists))
  }

  lemma {:induction false} FilledAll(sg: SchoolGroup, ks: seq<string>)
    requires forall i :: 0 <= i < |ks| ==> RowsUnder(sg.grades, ks[i]) != []
    ensures FilledGrades(sg, ks) == ks
  {
    if ks != [] {
      assert forall i :: 0 <= i < |ks[1..]| ==> ks[1..][i] == ks[i + 1];
      FilledAll(sg, ks[1..]);
      assert ks == [ks[0]] + ks[1..];
    }
  }

  /** The grades of a school's report: each grade once, in grade order. */
  lemma SchoolGrades(sg: SchoolGroup)
    requires SchoolShape(sg)
    ensures var go := GradeOrder(sg.gradeKeys);
      SortedBy(go, GradeLe) && multiset(go) == multiset(sg.gradeKeys)
      && (forall i :: 0 <= i < |go| ==> go[i] in sg.grades)
      && FilledGrades(sg, go) == go
  {
    var go := GradeOrder(sg.gradeKeys);
    GradeOrderMeaning(sg.gradeKeys);
    forall i | 0 <= i < |go| ensures go[i] in sg.grades {
      assert go[i] in multiset(sg.gradeKeys);
    }
    FilledAll(sg, go);
  }

  /** Each section of a school's report carries its grade's heading and
      exactly that grade's students in name order. */
  lemma SchoolSections(sg: SchoolGroup)
    requires SchoolShape(sg)
    ensures var go := GradeOrder(sg.gradeKeys);
      var ss := SectionsOf(sg, go);
      |ss| == |go|
      && forall i :: 0 <= i < |ss| ==>
           go[i] in sg.grades && ss[i].heading == GradeLabel(go[i])
           && SortedBy(ss[i].students, StudentLe) && multiset(ss[i].students) == multiset(sg.grades[go[i]])
  {
    var go := GradeOrder(sg.gradeKeys);
    SchoolGrades(sg);
    var ss := SectionsOf(sg, go);
    forall i | 0 <= i < |ss|
      ensures SortedBy(ss[i].students, StudentLe) && multiset(ss[i].students) == multiset(sg.grades[go[i]])
    {
      StudentOrderMeaning(sg.grades[go[i]]);
    }
  }

  /** The school keys reported on, in order. */
  function ReportKeys(o: Options, values: seq<Row>): seq<string>
    requires |values| >= 2
  {
    ObjectKeys(GroupAll(values[1..], SchoolFilter(o)).order)
  }

  /** Each school with a selected row is reported on, and only those. */
  lemma ReportKeysHas(o: Options, values: seq<Row>, k: string)
    requires |values| >= 2
    ensures k in ReportKeys(o, values) <==> HasSchool(values[1..], SchoolFilter(o), k)
    ensures k in ReportKeys(o, values) ==> k in GroupAll(values[1..], SchoolFilter(o)).schools
  {
    var g := GroupAll(values[1..], SchoolFilter(o));
    GroupAllShape(values[1..], SchoolFilter(o));
    ObjectKeysPermutation(g.order);
    GroupAllMeaning(values[1..], SchoolFilter(o), k, "");
  }

  /** No school is reported on twice. */
  lemma ReportKeysDistinct(o: Options, values: seq<Row>)
    requires |values| >= 2
    ensures Distinct(ReportKeys(o, values))
  {
    GroupAllShape(values[1..], SchoolFilter(o));
    ObjectKeysDistinct(GroupAll(values[1..], SchoolFilter(o)).order);
  }

  lemma ObjectKeysDistinct(order: seq<string>)
    requires Distinct(order)
    ensures Distinct(ObjectKeys(order))
  {
    ObjectKeysPermutation(order);
    PermutationDistinct(order, ObjectKeys(order));
  }

  /** With data rows, the run reports on the school keys of ReportKeys
      through the per-school loop. */
  lemma GenerateIsLoop(o: Options, values: seq<Row>, mailing: Option<seq<Row>>, today: string, pdfExists: string -> bool)
    requires |values| >= 2
    ensures var ks := ReportKeys(o, values);
      var g := GroupAll(values[1..], SchoolFilter(o));
      (forall i :: 0 <= i < |ks| ==> ks[i] in g.schools)
      && Generate(o, Some(values), mailing, today, pdfExists) == Ok(ReportsOf(ks, g.schools, o, LoadRecipients(mailing), today, pdfExists))
  {
    var ks := ReportKeys(o, values);
    var g := GroupAll(values[1..], SchoolFilter(o));
    forall i | 0 <= i < |ks| ensures ks[i] in g.schools {
      ReportKeysHas(o, values, ks[i]);
    }
    if g.order == [] {
      assert ks == [];
    }
  }

  /** generateAllSchoolAttendancePdfs fails only when the reports tab is
      missing, and produces nothing without data rows or matching
      schools. */
  lemma GenerateOutcome(o: Options, values: Option<seq<Row>>, mailing: Option<seq<Row>>, today: string, pdfExists: string -> bool)
    ensures Generate(o, values, mailing, today, pdfExists).Err? <==> values.None?
    ensures values.None? ==> Generate(o, values, mailing, today, pdfExists) == Err(NoReportsSheet)
    ensures values.Some? && |values.value| >= 2 ==>
      (Generate(o, values, mailing, today, pdfExists) == Ok([]) <==> ReportKeys(o, values.value) == [])
  {
    if values.Some? && |values.value| >= 2 {
      GenerateIsLoop(o, values.value, mailing, today, pdfExists);
    }
  }

  /** Report i is on school key ks[i], under the first spelling of the
      school, with the PDF name built from it and today's date; its mail
      follows MailFor; its sections, unless an existing PDF is reused,
      are laid out by SchoolSections. */
  lemma ReportsOfMeaning(ks: seq<string>, schools: map<string, SchoolGroup>, o: Options, m: Recipients, today: string,
                         pdfExists: string -> bool, i: nat)
    requires forall j :: 0 <= j < |ks| ==> ks[j] in schools
    requires i < |ks|
    ensures var r := ReportsOf(ks, schools, o, m, today, pdfExists)[i];
      var sg := schools[ks[i]];
      r.school == sg.name && r.pdfName == DocName(sg.name, today) + ".pdf"
      && r.mail == MailFor(o, m, sg.name, today)
      && (r.sections.None? <==> pdfExists(r.pdfName))
      && (r.sections.Some? ==> r.sections.value == SectionsOf(sg, GradeOrder(sg.gradeKeys)))
  {
  }

  lemma LoadRecipientsWellFormed(values: Option<seq<Row>>)
    ensures WellFormed(LoadRecipients(values))
  {
    if values.Some? && |values.value| >= 2 {
      var keys := NormalizedHeader(values.value[0]);
      var iS := IndexOf(keys, "school");
      var iE := EmailColumn(keys);
      if iS.Some? && iE.Some? {
        RecipientsWellFormed(values.value[1..], iS.value, iE.value);
      }
    }
  }

  lemma LookupEntries(m: Recipients, name: string)
    requires WellFormed(m)
    ensures AllEntries(Lookup(m, name))
    ensures Get(m, name).Some? ==> AllEntries(Get(m, name).value) && Get(m, name).value != []
  {
  }

  /** A school's mail: none when mailing is skipped; otherwise sent
      exactly when it has recipients (the forced group's when one is
      forced), with the report's name as subject and a blind-copy list
      that reads back as exactly those recipients. */
  lemma MailMeaning(o: Options, m: Recipients, school: string, today: string)
    requires WellFormed(m)
    ensures o.skipEmail ==> MailFor(o, m, school, today).None?
    ensures !o.skipEmail ==> (MailFor(o, m, school, today).Some? <==> RecipientsFor(m, ForceKey(o), school) != [])
    ensures ForceKey(o) != "" ==> RecipientsFor(m, ForceKey(o), school) == Lookup(m, ForceKey(o))
    ensures MailFor(o, m, school, today).Some? ==>
      MailFor(o, m, school, today).value.subject == DocName(school, today)
      && SplitEmails(Text(MailFor(o, m, school, today).value.bcc)) == RecipientsFor(m, ForceKey(o), school)
  {
    var to := RecipientsFor(m, ForceKey(o), school);
    LookupEntries(m, ForceKey(o));
    LookupEntries(m, school);
    LookupEntries(m, NormalizeSchool(Text(school)));
    if to != [] {
      SplitEmailsOfJoin(to);
    }
  }

  // -------------------------------------------------------------- menu

  /** School key of a trimmed label. */
  function LabelKeyOf(school: string): string { NormalizeSchool(Text(school)) }

  /** The school keys of a list of labels. */
  function KeysOf(labels: seq<string>): (r: seq<string>)
    ensures |r| == |labels| && forall i :: 0 <= i < |labels| ==> r[i] == LabelKeyOf(labels[i])
  {
    seq(|labels|, i requires 0 <= i < |labels| => LabelKeyOf(labels[i]))
  }

  /** Some label of the list has school key k. */
  predicate HasKey(labels: seq<string>, k: string) { k in KeysOf(labels) }

  /** The first label met for each non-blank school key, in first-seen
      order. */
  function FirstPerKey(ls: seq<string>): seq<string>
    decreases |ls|
  {
    if ls == [] then []
    else
      var p := FirstPerKey(ls[..|ls| - 1]);
      var key := LabelKeyOf(ls[|ls| - 1]);
      if key != "" && !HasKey(p, key) then p + [ls[|ls| - 1]] else p
  }

  /** The schools map of reportsFetchSchoolsForMenu_: the first trimmed
      label met for each non-blank key. */
  function MenuLabels(rows: seq<Row>, idx: nat): seq<string> {
    FirstPerKey(ReportLabels(rows, idx))
  }

  lemma HasKeySnoc(labels: seq<string>, x: string, k: string)
    ensures HasKey(labels + [x], k) <==> HasKey(labels, k) || LabelKeyOf(x) == k
  {
    assert KeysOf(labels + [x]) == KeysOf(labels) + [LabelKeyOf(x)];
  }

  /** A key has a label exactly when some row carries it and it is not blank. */
  lemma {:induction false} FirstPerKeyCover(ls: seq<string>, k: string)
    ensures HasKey(FirstPerKey(ls), k) <==> k != "" && HasKey(ls, k)
    decreases |ls|
  {
    if ls != [] {
      var n := |ls| - 1;
      FirstPerKeyCover(ls[..n], k);
      HasKeySnoc(FirstPerKey(ls[..n]), ls[n], k);
      assert ls == ls[..n] + [ls[n]];
      HasKeySnoc(ls[..n], ls[n], k);
    }
  }

  /** Every label comes from the rows and has a non-blank school key. */
  lemma {:induction false} FirstPerKeyFrom(ls: seq<string>)
    ensures forall i :: 0 <= i < |FirstPerKey(ls)| ==> FirstPerKey(ls)[i] in ls && LabelKeyOf(FirstPerKey(ls)[i]) != ""
    decreases |ls|
  {
    if ls != [] {
      var n := |ls| - 1;
      FirstPerKeyFrom(ls[..n]);
      assert forall x :: x in ls[..n] ==> x in ls;
    }
  }

  /** No two labels share a school key. */
  lemma {:induction false} FirstPerKeyDistinct(ls: seq<string>)
    ensures Distinct(KeysOf(FirstPerKey(ls)))
    decreases |ls|
  {
    if ls != [] {
      var n := |ls| - 1;
      var p := FirstPerKey(ls[..n]);
      FirstPerKeyDistinct(ls[..n]);
      if LabelKeyOf(ls[n]) != "" && !HasKey(p, LabelKeyOf(ls[n])) {
        assert FirstPerKey(ls) == p + [ls[n]];
        assert KeysOf(p + [ls[n]]) == KeysOf(p) + [LabelKeyOf(ls[n])];
        DistinctSnoc(KeysOf(p), LabelKeyOf(ls[n]));
      } else {
        assert FirstPerKey(ls) == p;
      }
    }
  }

  /** The spelling kept for a key is the first one met. */
  lemma {:induction false} FirstPerKeyFirst(ls: seq<string>, j: nat)
    requires j < |ls| && LabelKeyOf(ls[j]) != ""
    requires forall i :: 0 <= i < j ==> LabelKeyOf(ls[i]) != LabelKeyOf(ls[j])
    ensures ls[j] in FirstPerKey(ls)
    decreases |ls|
  {
    var n := |ls| - 1;
    if j < n {
      assert forall i :: 0 <= i <= j ==> ls[..n][i] == ls[i];
      FirstPerKeyFirst(ls[..n], j);
      FirstPerKeyKeeps(ls, ls[j]);
    } else {
      FirstPerKeyLast(ls);
    }
  }

  /** The last label is kept when no earlier label has its key. */
  lemma FirstPerKeyLast(ls: seq<string>)
    requires ls != [] && LabelKeyOf(ls[|ls| - 1]) != ""
    requires forall i :: 0 <= i < |ls| - 1 ==> LabelKeyOf(ls[i]) != LabelKeyOf(ls[|ls| - 1])
    ensures ls[|ls| - 1] in FirstPerKey(ls)
  {
    var n := |ls| - 1;
    assert forall i :: 0 <= i < n ==> LabelKeyOf(ls[..n][i]) != LabelKeyOf(ls[n]);
    KeyAbsent(ls[..n], LabelKeyOf(ls[n]));
  }

  /** A spelling kept before the last label is still kept after it. */
  lemma FirstPerKeyKeeps(ls: seq<string>, x: string)
    requires ls != [] && x in FirstPerKey(ls[..|ls| - 1])
    ensures x in FirstPerKey(ls)
  {
  }

  /** A key no label of the list has is no key of its first spellings. */
  lemma KeyAbsent(ls: seq<string>, k: string)
    requires forall i :: 0 <= i < |ls| ==> LabelKeyOf(ls[i]) != k
    ensures !HasKey(FirstPerKey(ls), k)
  {
    FirstPerKeyCover(ls, k);
    assert k !in KeysOf(ls);
  }

  /** The labels of one tab (None when it is missing). */
  function TabLabels(values: Option<seq<Row>>): seq<string> {
    if values.None? || |values.value| < 2 then []
    else
      var idx := IndexOf(NormalizedHeader(values.value[0]), "school");
      if idx.None? then [] else MenuLabels(values.value[1..], idx.value)
  }

  /** reportsFetchSchoolsForMenu_: the ReportMailingList tab's schools, or
      the reports tab's when it has none, sorted. */
  function MenuSchools(mailing: Option<seq<Row>>, reports: Option<seq<Row>>): seq<string> {
    var fromList := TabLabels(mailing);
    SortBy(if fromList != [] then fromList else TabLabels(reports), StrLe)
  }

  lemma StrOrderConsistent()
    ensures TotalPreorder(StrLe)
  {
    forall a, b ensures StrLe(a, b) || StrLe(b, a) {
      StrLeTotal(a, b);
    }
    forall a, b, c | StrLe(a, b) && StrLe(b, c) ensures StrLe(a, c) {
      StrLeTrans(a, b, c);
    }
  }

  /** The menu schools are sorted and are the labels of the list tab, or
      of the reports tab when the list tab has none. */
  lemma MenuSchoolsMeaning(mailing: Option<seq<Row>>, reports: Option<seq<Row>>)
    ensures SortedBy(MenuSchools(mailing, reports), StrLe)
    ensures multiset(MenuSchools(mailing, reports))
         == multiset(if TabLabels(mailing) != [] then TabLabels(mailing) else TabLabels(reports))
  {
    StrOrderConsistent();
    SortBySorted(if TabLabels(mailing) != [] then TabLabels(mailing) else TabLabels(reports), StrLe);
  }

  datatype Action = Action(caption: string, handler: string)

  const OfyAction := Action("Send report to OFY (all schools)", "reportsMenuSendOFY")
  const EveryoneAction := Action("Send reports to everyone", "reportsSendAllReports_")

  /** The schools other than OFY. */
  function NotOfy(schools: seq<string>): (r: seq<string>)
    ensures forall i :: 0 <= i < |r| ==> r[i] in schools && LabelKeyOf(r[i]) != "ofy"
    ensures forall x :: x in schools && LabelKeyOf(x) != "ofy" ==> x in r
  {
    if schools == [] then []
    else (if LabelKeyOf(schools[0]) == "ofy" then [] else [schools[0]]) + NotOfy(schools[1..])
  }

  /** The schools given a menu slot: the first four other than OFY. */
  function Limited(schools: seq<string>): seq<string> {
    Take(NotOfy(schools), MenuMaxSchools)
  }

  function SlotHandler(slot: nat): string { "reportsMenuSendSlot" + NatToString(slot) }

  /** reportsBuildMenuActions_ on the menu schools. */
  function MenuActions(schools: seq<string>): seq<Action> {
    var lim := Limited(schools);
    seq(|lim|, i requires 0 <= i < |lim| => Action("Send report to " + lim[i], SlotHandler(i + 1)))
      + [OfyAction, EveryoneAction]
  }

  /** At most four school actions, then the OFY and the everyone actions. */
  lemma MenuActionsShape(schools: seq<string>)
    ensures var a := MenuActions(schools);
      |Limited(schools)| <= MenuMaxSchools && |a| == |Limited(schools)| + 2
      && a[|a| - 2] == OfyAction && a[|a| - 1] == EveryoneAction
  {
  }

  /** School action i names a school of the menu other than OFY and
      calls the handler of slot i + 1. */
  lemma MenuActionsSlot(schools: seq<string>, i: nat)
    requires i < |Limited(schools)|
    ensures var lim := Limited(schools);
      lim[i] in schools && LabelKeyOf(lim[i]) != "ofy"
      && MenuActions(schools)[i] == Action("Send report to " + lim[i], SlotHandler(i + 1))
  {
    var lim := Limited(schools);
    var acts := seq(|lim|, j requires 0 <= j < |lim| => Action("Send report to " + lim[j], SlotHandler(j + 1)));
    assert MenuActions(schools) == acts + [OfyAction, EveryoneAction];
    assert MenuActions(schools)[i] == acts[i];
    NotOfyAt(schools, i);
  }

  lemma NotOfyAt(schools: seq<string>, i: nat)
    requires i < |Limited(schools)|
    ensures Limited(schools)[i] in schools && LabelKeyOf(Limited(schools)[i]) != "ofy"
  {
    assert Limited(schools)[i] == NotOfy(schools)[i];
  }

  /** With at most four schools other than OFY, each of them gets a slot. */
  lemma LimitedCovers(schools: seq<string>, x: string)
    requires |NotOfy(schools)| <= MenuMaxSchools
    requires x in schools && LabelKeyOf(x) != "ofy"
    ensures x in Limited(schools)
  {
  }

  const SlotPrefix := "REPORTS_MENU_SLOT_"

  function SlotKey(slot: nat): string { SlotPrefix + NatToString(slot) }

  /** Different slots have different property keys. */
  lemma SlotKeyInjective(i: nat, j: nat)
    requires SlotKey(i) == SlotKey(j)
    ensures i == j
  {
    assert NatToString(i) == SlotKey(i)[|SlotPrefix|..];
    assert NatToString(j) == SlotKey(j)[|SlotPrefix|..];
    NatToStringValue(i);
    NatToStringValue(j);
  }

  /** One pass of reportsStoreMenuSlots_: slot i holds schools[i - 1]
      when there is a non-blank one, and is deleted otherwise. */
  function Slot(props: map<string, string>, schools: seq<string>, i: nat): map<string, string>
    requires i >= 1
  {
    var school := if i - 1 < |schools| then schools[i - 1] else "";
    if school != "" then props[SlotKey(i) := school] else props - {SlotKey(i)}
  }

  function SlotsUpTo(props: map<string, string>, schools: seq<string>, n: nat): map<string, string> {
    if n == 0 then props else Slot(SlotsUpTo(props, schools, n - 1), schools, n)
  }

  /** Storing slots 1..n leaves every other key as it was. */
  lemma {:induction false} SlotsUpToOthers(props: map<string, string>, schools: seq<string>, n: nat, key: string)
    requires forall k :: 1 <= k <= n ==> key != SlotKey(k)
    ensures key in SlotsUpTo(props, schools, n) <==> key in props
    ensures key in props ==> SlotsUpTo(props, schools, n)[key] == props[key]
  {
    if n > 0 {
      SlotsUpToOthers(props, schools, n - 1, key);
    }
  }

  /** After storing slots 1..n, slot k holds schools[k - 1] when that is
      non-blank and is absent otherwise. */
  lemma {:induction false} SlotsUpToAt(props: map<string, string>, schools: seq<string>, n: nat, k: nat)
    requires 1 <= k <= n
    ensures SlotKey(k) in SlotsUpTo(props, schools, n) <==> k - 1 < |schools| && schools[k - 1] != ""
    ensures SlotKey(k) in SlotsUpTo(props, schools, n) ==> SlotsUpTo(props, schools, n)[SlotKey(k)] == schools[k - 1]
  {
    if k < n {
      SlotsUpToAt(props, schools, n - 1, k);
      if SlotKey(k) == SlotKey(n) {
        SlotKeyInjective(k, n);
      }
    }
  }

  /** The user properties the menu slots are stored in. */
  class UserProperties {
    var props: map<string, string>

    constructor (p: map<string, string>)
      ensures props == p
    {
      props := p;
    }

    /** reportsStoreMenuSlots_. */
    method StoreMenuSlots(schools: seq<string>)
      modifies this
      ensures props == SlotsUpTo(old(props), schools, MenuMaxSchools)
    {
      var i := 1;
      while i <= MenuMaxSchools
        invariant 1 <= i <= MenuMaxSchools + 1
        invariant props == SlotsUpTo(old(props), schools, i - 1)
      {
        var school := if i - 1 < |schools| then schools[i - 1] else "";
        if school != "" {
          props := props[SlotKey(i) := school];
        } else {
          props := props - {SlotKey(i)};
        }
        i := i + 1;
      }
    }
  }

  /** sendReportToSchool: the trimmed name is required. */
  function SendReportToSchool(raw: Cell): Result<Options> {
    var name := CellText(raw);
    if name == "" then Err("School name is required.") else Ok(Options(Some([Text(name)]), Empty, false))
  }

  const SendReportsToEveryone := Options(None, Empty, false)
  const SendReportsToOfy := Options(None, Text("OFY"), false)

  function NoSlotMessage(slot: nat): string {
    "No school configured for menu slot " + NatToString(slot) + ". Please reopen the sheet to refresh the menu."
  }

  /** reportsMenuSendSlot_. */
  function MenuSendSlot(props: map<string, string>, slot: nat): Result<Options> {
    var key := SlotKey(slot);
    if key !in props || props[key] == "" then Err(NoSlotMessage(slot))
    else SendReportToSchool(Text(props[key]))
  }

  /** Each menu action reaches its school: after the slots are stored from
      the menu schools, the handler of slot k reports on exactly the
      school that action k names. */
  lemma MenuSlotSends(props: map<string, string>, schools: seq<string>, k: nat)
    requires forall i :: 0 <= i < |schools| ==> schools[i] != "" && NoEdgeSpace(schools[i])
    requires 1 <= k <= |Limited(schools)|
    ensures var lim := Limited(schools);
      MenuSendSlot(SlotsUpTo(props, lim, MenuMaxSchools), k) == Ok(Options(Some([Text(lim[k - 1])]), Empty, false))
  {
    var lim := Limited(schools);
    MenuActionsShape(schools);
    MenuActionsSlot(schools, k - 1);
    SlotsUpToAt(props, lim, MenuMaxSchools, k);
    CellTextOfTrimmed(lim[k - 1]);
  }

  /** The report a slot sends is filtered to that one school. */
  lemma SlotFilter(school: string)
    requires school != "" && NoEdgeSpace(school)
    ensures SchoolFilter(Options(Some([Text(school)]), Empty, false)) == Some([LabelKeyOf(school)])
  {
    CellTextOfTrimmed(school);
    assert [Text(school)][..0] == [];
    assert CellText(Empty) == "";
    assert ForceKey(Options(Some([Text(school)]), Empty, false)) == "";
    assert LabelKeyOf(school) != "";
    assert SchoolKeys([]) == [];
    assert SchoolKeys([Text(school)]) == [LabelKeyOf(school)];
  }

  /** A slot the menu has no school for fails with its message. */
  lemma EmptySlotFails(props: map<string, string>, schools: seq<string>, k: nat)
    requires |Limited(schools)| < k <= MenuMaxSchools
    ensures MenuSendSlot(SlotsUpTo(props, Limited(schools), MenuMaxSchools), k) == Err(NoSlotMessage(k))
  {
    SlotsUpToAt(props, Limited(schools), MenuMaxSchools, k);
  }

  /** The OFY and everyone actions: every school, mailed to the OFY
      group or to each school's own list. */
  lemma FixedActions()
    ensures ForceKey(SendReportsToOfy) == "ofy" && SchoolFilter(SendReportsToOfy).None?
    ensures ForceKey(SendReportsToEveryone) == "" && SchoolFilter(SendReportsToEveryone).None?
  {
    CellTextOfText("OFY");
    assert Trim("OFY") == "OFY" by { TrimOfTrimmed("OFY"); }
  }

  // ------------------------------------------- School Mailing Lists tab

  /** The kept email and name of a school. */
  datatype Entry = Entry(email: string, name: string)

  /** The school, email and name columns of the tab's header. */
  datatype MailCols = MailCols(school: Option<nat>, email: Option<nat>, name: Option<nat>)

  function MailColsOf(header: Row): MailCols {
    var keys := NormalizedHeader(header);
    MailCols(IndexOf(keys, "school"), IndexOf(keys, "email"), IndexOf(keys, "name"))
  }

  /** The trimmed text of a column, or '' when the column is missing. */
  function FieldText(row: Row, col: Option<nat>): string {
    if col.None? then "" else RowLabel(row, col.value)
  }

  function EntryOf(row: Row, c: MailCols): Entry {
    Entry(FieldText(row, c.email), FieldText(row, c.name))
  }

  /** The trimmed school of each row of the reports tab. */
  function ReportLabels(rows: seq<Row>, idx: nat): (r: seq<string>)
    ensures |r| == |rows| && forall i :: 0 <= i < |rows| ==> r[i] == RowLabel(rows[i], idx)
  {
    seq(|rows|, i requires 0 <= i < |rows| => RowLabel(rows[i], idx))
  }

  /** Each row of the tab as its trimmed school and its entry. */
  function Named(rows: seq<Row>, c: MailCols): (r: seq<(string, Entry)>)
    ensures |r| == |rows| && forall i :: 0 <= i < |rows| ==> r[i] == (FieldText(rows[i], c.school), EntryOf(rows[i], c))
  {
    seq(|rows|, i requires 0 <= i < |rows| => (FieldText(rows[i], c.school), EntryOf(rows[i], c)))
  }

  function Schools(ps: seq<(string, Entry)>): (r: seq<string>)
    ensures |r| == |ps| && forall i :: 0 <= i < |ps| ==> r[i] == ps[i].0
  {
    seq(|ps|, i requires 0 <= i < |ps| => ps[i].0)
  }

  /** The trimmed school of each row already on the tab. */
  function ManualSchools(rows: seq<Row>, c: MailCols): seq<string> {
    Schools(Named(rows, c))
  }

  /** existing.set(school, entry) for each pair with a school, in order. */
  function LastWins(ps: seq<(string, Entry)>): map<string, Entry>
    decreases |ps|
  {
    if ps == [] then map[]
    else
      var p := LastWins(ps[..|ps| - 1]);
      var (school, e) := ps[|ps| - 1];
      if school == "" then p else p[school := e]
  }

  /** The `existing` map: each school named on the tab, with the email
      and name of the last row naming it. */
  function Existing(rows: seq<Row>, c: MailCols): map<string, Entry> {
    LastWins(Named(rows, c))
  }

  /** Every school of either tab, once, in code-unit order. */
  function MailSchools(labels: seq<string>, data: seq<Row>, c: MailCols): seq<string> {
    SortBy(Uniq(labels + ManualSchools(data, c)), StrLe)
  }

  function Prev(existing: map<string, Entry>, school: string): Entry {
    if school in existing then existing[school] else Entry("", "")
  }

  /** The link of a school: its mailto URL, '' without addresses. */
  function MailLink(school: string, e: Entry, enc: string -> string): string {
    MailtoUrl(Text(e.email), "School update - " + school, enc)
  }

  function LinkText(school: string, url: string): string {
    if url != "" then "Email " + school else "No emails found"
  }

  function MailRow(school: string, e: Entry, enc: string -> string): (r: Row)
    ensures |r| == 4
  {
    [Text(school), Text(e.email), Text(e.name), Text(LinkText(school, MailLink(school, e, enc)))]
  }

  const MailHeader: Row := [Text("School"), Text("Email"), Text("Name"), Text("Email Link")]

  /** The rows written under the header and the link of each. */
  datatype Plan = Plan(rows: seq<Row>, links: seq<string>)

  function PlanOf(schools: seq<string>, existing: map<string, Entry>, enc: string -> string): (r: Plan)
    ensures |r.rows| == |r.links| == |schools|
  {
    Plan(seq(|schools|, i requires 0 <= i < |schools| => MailRow(schools[i], Prev(existing, schools[i]), enc)),
         seq(|schools|, i requires 0 <= i < |schools| => MailLink(schools[i], Prev(existing, schools[i]), enc)))
  }

  /** generateSchoolMailingListSheet up to the rewrite, from the reports
      tab (None when it is missing) and the tab's current header and rows. */
  function MailingList(source: Option<seq<Row>>, header: Row, data: seq<Row>, enc: string -> string): Result<Plan> {
    if source.None? then Err(NoReportsSheet)
    else if |source.value| < 2 then Err("Reports sheet has no data rows.")
    else
      var idx := IndexOf(NormalizedHeader(source.value[0]), "school");
      if idx.None? then Err("Reports sheet is missing a School column.")
      else
        var c := MailColsOf(header);
        var schools := MailSchools(ReportLabels(source.value[1..], idx.value), data, c);
        Ok(PlanOf(schools, Existing(data, c), enc))
  }

  lemma LastWinsSnoc(ps: seq<(string, Entry)>, school: string, e: Entry)
    ensures LastWins(ps + [(school, e)]) == if school == "" then LastWins(ps) else LastWins(ps)[school := e]
  {
    assert (ps + [(school, e)])[..|ps|] == ps;
  }

  /** The loop over the tab's rows that fills `existing`. */
  method ReadExisting(ps: seq<(string, Entry)>) returns (existing: map<string, Entry>)
    ensures existing == LastWins(ps)
  {
    existing := map[];
    var j := 0;
    while j < |ps|
      invariant 0 <= j <= |ps|
      invariant existing == LastWins(ps[..j])
    {
      var (school, e) := ps[j];
      assert ps[..j + 1] == ps[..j] + [(school, e)];
      LastWinsSnoc(ps[..j], school, e);
      if school != "" {
        existing := existing[school := e];
      }
      j := j + 1;
    }
    assert ps[..j] == ps;
  }

  /** generateSchoolMailingListSheet on the School Mailing Lists tab `sh`:
      on an error nothing is written; otherwise the tab is cleared and
      holds the header and one row per school, and the links the rows
      carry are returned with the number of schools. */
  method RebuildMailingList(source: Option<seq<Row>>, sh: Sheet, enc: string -> string)
    returns (r: Result<nat>, links: seq<string>)
    requires sh.Valid()
    modifies sh
    ensures sh.Valid()
    ensures var plan := MailingList(source, old(sh.header), old(sh.data), enc);
      if plan.Err? then
        r == Err(plan.error) && links == [] && sh.header == old(sh.header) && sh.data == old(sh.data)
      else
        (r == Ok(|plan.value.rows|) && links == plan.value.links
         && sh.header == Pad(MailHeader, old(sh.Width())) && sh.data == PadAll(plan.value.rows, |sh.header|))
  {
    links := [];
    if source.None? {
      return Err(NoReportsSheet), links;
    }
    var values := source.value;
    if |values| < 2 {
      return Err("Reports sheet has no data rows."), links;
    }
    var idx := IndexOf(NormalizedHeader(values[0]), "school");
    if idx.None? {
      return Err("Reports sheet is missing a School column."), links;
    }
    var c := MailColsOf(sh.header);
    var schools := UniqueValues(ReportLabels(values[1..], idx.value) + ManualSchools(sh.data, c));
    var existing := ReadExisting(Named(sh.data, c));
    var sorted := SortBy(schools, StrLe);
    var plan := PlanOf(sorted, existing, enc);
    sh.ClearAll();
    var ok := sh.WriteFromTop([MailHeader] + plan.rows, 4);
    assert ([MailHeader] + plan.rows)[1..] == plan.rows;
    r := Ok(|plan.rows|);
    links := plan.links;
  }

  /** The tab lists every school of either tab once, sorted: a school is
      listed exactly when some row of the reports tab or of the tab
      itself names it. */
  lemma MailSchoolsMeaning(labels: seq<string>, data: seq<Row>, c: MailCols)
    ensures SortedBy(MailSchools(labels, data, c), StrLe)
    ensures Distinct(MailSchools(labels, data, c))
    ensures forall x :: x in MailSchools(labels, data, c) <==>
      x != "" && (x in labels || x in ManualSchools(data, c))
  {
    var u := Uniq(labels + ManualSchools(data, c));
    StrOrderConsistent();
    SortBySorted(u, StrLe);
    UniqDistinct(labels + ManualSchools(data, c));
    PermutationDistinct(u, SortBy(u, StrLe));
    SortByElements(u, StrLe);
    forall x ensures x in u <==> x != "" && (x in labels || x in ManualSchools(data, c)) {
      UniqHas(labels + ManualSchools(data, c), x);
    }
  }

  lemma {:induction false} LastWinsKeys(ps: seq<(string, Entry)>, k: string)
    ensures k in LastWins(ps) <==> k != "" && k in Schools(ps)
    decreases |ps|
  {
    if ps != [] {
      var n := |ps| - 1;
      LastWinsKeys(ps[..n], k);
      assert Schools(ps) == Schools(ps[..n]) + [ps[n].0];
    }
  }

  lemma {:induction false} LastWinsLast(ps: seq<(string, Entry)>, j: nat)
    requires j < |ps| && ps[j].0 != ""
    requires forall i :: j < i < |ps| ==> ps[i].0 != ps[j].0
    ensures ps[j].0 in LastWins(ps) && LastWins(ps)[ps[j].0] == ps[j].1
    decreases |ps|
  {
    var n := |ps| - 1;
    if j < n {
      LastWinsLast(ps[..n], j);
      assert ps[..n][j] == ps[j];
    }
  }

  /** Only schools named on the tab keep an entry. */
  lemma ExistingKeys(rows: seq<Row>, c: MailCols, k: string)
    ensures k in Existing(rows, c) <==> k != "" && k in ManualSchools(rows, c)
  {
    LastWinsKeys(Named(rows, c), k);
  }

  /** A school keeps the email and name of the last row naming it. */
  lemma ExistingLast(rows: seq<Row>, c: MailCols, j: nat)
    requires j < |rows| && FieldText(rows[j], c.school) != ""
    requires forall i :: j < i < |rows| ==> FieldText(rows[i], c.school) != FieldText(rows[j], c.school)
    ensures FieldText(rows[j], c.school) in Existing(rows, c)
    ensures Existing(rows, c)[FieldText(rows[j], c.school)] == EntryOf(rows[j], c)
  {
    LastWinsLast(Named(rows, c), j);
  }

  /** Each row of the tab: the school, its kept email and name, and a
      link exactly when the kept email text holds an address. */
  lemma PlanMeaning(schools: seq<string>, existing: map<string, Entry>, enc: string -> string, i: nat)
    requires i < |schools|
    ensures var p := PlanOf(schools, existing, enc);
      var e := Prev(existing, schools[i]);
      p.rows[i][0] == Text(schools[i]) && p.rows[i][1] == Text(e.email) && p.rows[i][2] == Text(e.name)
      && (p.links[i] == "" <==> SplitEmails(Text(e.email)) == [])
      && p.rows[i][3] == Text(if p.links[i] == "" then "No emails found" else "Email " + schools[i])
  {
    var e := Prev(existing, schools[i]);
    MailtoUrlEmpty(Text(e.email), "School update - " + schools[i], enc);
  }
}
