// signInSuggestPeople (SignInServer.js): the sign-in page's search. The
// known-student directory and the roster are merged by id into one table
// (roster entries only fill blank fields of a known entry), every entry is
// scored against the query words (+6 exact, +4 prefix, +2 substring per
// word and field), entries without points are dropped and the rest are
// returned best first, then by full name, then by id, at most `limit`.
module SignInSuggest {
  import opened Wrappers
  import opened Strings
  import opened Cells
  import opened Sorting
  import opened Grades
  import opened Suggest
  import opened KnownStudents
  import SignIn

  // ------------------------------------------------------------ combined

  /** One entry of the combined map; source is "known" or "roster". */
  datatype Entry = Entry(id: string, firstName: string, lastName: string, school: string,
                         email: string, grade: string, source: string)

  /** The combined Map: its entries and its keys in insertion order. */
  datatype Table = Table(order: seq<string>, entries: map<string, Entry>)

  /** Every listed key has an entry. */
  predicate Listed(t: Table) {
    forall k :: 0 <= k < |t.order| ==> t.order[k] in t.entries
  }

  /** Listed, each key once, every entry listed under its own non-blank
      id. */
  ghost predicate WellKeyed(t: Table) {
    Listed(t)
    && (forall i, j :: 0 <= i < j < |t.order| ==> t.order[i] != t.order[j])
    && (forall k :: k in t.entries ==> k in t.order)
    && (forall k :: k in t.entries ==> t.entries[k].id == k && k != "")
  }

  function KnownEntry(rec: KnownRecord): (e: Entry)
    ensures e.id == rec.id && e.source == "known"
  {
    Entry(rec.id, rec.firstName, rec.lastName, rec.school, rec.email, NormalizeGrade(rec.grade), "known")
  }

  function RosterNew(id: string, item: SignIn.RosterEntry): (e: Entry)
    ensures e.id == id && e.source == "roster" && e.email == ""
  {
    Entry(id, Trim(item.firstName), Trim(item.lastName), Trim(item.school), "", NormalizeGrade(item.grade), "roster")
  }

  /** A roster item filling the blank fields of an entry already there. */
  function Fill(e: Entry, item: SignIn.RosterEntry): Entry {
    e.(firstName := if e.firstName == "" && item.firstName != "" then item.firstName else e.firstName,
       lastName := if e.lastName == "" && item.lastName != "" then item.lastName else e.lastName,
       school := if e.school == "" && item.school != "" then item.school else e.school,
       grade := if e.grade == "" && item.grade != "" then NormalizeGrade(item.grade) else e.grade)
  }

  /** combined.set(rec.id, ...) for a known record with an id. */
  function AddKnown(t: Table, rec: KnownRecord): Table {
    if rec.id == "" then t
    else Table(if rec.id in t.entries then t.order else t.order + [rec.id], t.entries[rec.id := KnownEntry(rec)])
  }

  /** One roster item: fill an existing entry, or add a new one. */
  function AddRoster(t: Table, item: SignIn.RosterEntry): Table {
    var id := Trim(item.id);
    if id == "" then t
    else if id in t.entries then Table(t.order, t.entries[id := Fill(t.entries[id], item)])
    else Table(t.order + [id], t.entries[id := RosterNew(id, item)])
  }

  function KnownTable(known: seq<KnownRecord>): Table {
    if known == [] then Table([], map[])
    else AddKnown(KnownTable(known[..|known| - 1]), known[|known| - 1])
  }

  function RosterTable(t: Table, roster: seq<SignIn.RosterEntry>): Table {
    if roster == [] then t
    else AddRoster(RosterTable(t, roster[..|roster| - 1]), roster[|roster| - 1])
  }

  function Combined(known: seq<KnownRecord>, roster: seq<SignIn.RosterEntry>): Table {
    RosterTable(KnownTable(known), roster)
  }

  /** Map.set of an entry under its own non-blank id keeps the keying. */
  lemma SetKeyed(t: Table, e: Entry)
    requires WellKeyed(t) && e.id != ""
    ensures WellKeyed(Table(if e.id in t.entries then t.order else t.order + [e.id], t.entries[e.id := e]))
  {
    var t1 := Table(if e.id in t.entries then t.order else t.order + [e.id], t.entries[e.id := e]);
    forall k | 0 <= k < |t1.order|
      ensures t1.order[k] in t1.entries
    {
      if k < |t.order| {
        assert t1.order[k] == t.order[k];
      }
    }
    forall i, j | 0 <= i < j < |t1.order|
      ensures t1.order[i] != t1.order[j]
    {
      if j < |t.order| {
        assert t1.order[i] == t.order[i] && t1.order[j] == t.order[j];
      } else {
        assert t1.order[i] == t.order[i] && t1.order[j] == e.id;
      }
    }
    assert Listed(t1);
  }

  lemma AddKnownKeyed(t: Table, rec: KnownRecord)
    requires WellKeyed(t)
    ensures WellKeyed(AddKnown(t, rec))
  {
    if rec.id != "" {
      SetKeyed(t, KnownEntry(rec));
    }
  }

  lemma AddRosterKeyed(t: Table, item: SignIn.RosterEntry)
    requires WellKeyed(t)
    ensures WellKeyed(AddRoster(t, item))
  {
    var id := Trim(item.id);
    if id != "" {
      SetKeyed(t, if id in t.entries then Fill(t.entries[id], item) else RosterNew(id, item));
    }
  }

  /** The combined map is keyed by non-blank ids, each listed once in
      insertion order. */
  lemma {:induction false} KnownTableKeyed(known: seq<KnownRecord>)
    ensures WellKeyed(KnownTable(known))
    decreases |known|
  {
    if known != [] {
      KnownTableKeyed(known[..|known| - 1]);
      AddKnownKeyed(KnownTable(known[..|known| - 1]), known[|known| - 1]);
    }
  }

  lemma {:induction false} RosterTableKeyed(t: Table, roster: seq<SignIn.RosterEntry>)
    requires WellKeyed(t)
    ensures WellKeyed(RosterTable(t, roster))
    decreases |roster|
  {
    if roster != [] {
      RosterTableKeyed(t, roster[..|roster| - 1]);
      AddRosterKeyed(RosterTable(t, roster[..|roster| - 1]), roster[|roster| - 1]);
    }
  }

  lemma CombinedKeyed(known: seq<KnownRecord>, roster: seq<SignIn.RosterEntry>)
    ensures WellKeyed(Combined(known, roster))
  {
    KnownTableKeyed(known);
    RosterTableKeyed(KnownTable(known), roster);
  }

  /** The entry of a directory id is that of the last directory record
      with the id. */
  lemma {:induction false} KnownTableAt(known: seq<KnownRecord>, j: nat)
    requires j < |known| && known[j].id != ""
    requires forall i :: j < i < |known| ==> known[i].id != known[j].id
    ensures known[j].id in KnownTable(known).entries
    ensures KnownTable(known).entries[known[j].id] == KnownEntry(known[j])
    decreases |known|
  {
    var init := known[..|known| - 1];
    if j < |init| {
      forall i | j < i < |init|
        ensures init[i].id != init[j].id
      {
        assert init[i] == known[i];
      }
      KnownTableAt(init, j);
      assert known[j] == init[j];
    }
  }

  /** e1 keeps e0's id, e-mail and source and every non-blank field. */
  predicate KeepsFilled(e0: Entry, e1: Entry) {
    e1.id == e0.id && e1.email == e0.email && e1.source == e0.source
    && (e0.firstName != "" ==> e1.firstName == e0.firstName)
    && (e0.lastName != "" ==> e1.lastName == e0.lastName)
    && (e0.school != "" ==> e1.school == e0.school)
    && (e0.grade != "" ==> e1.grade == e0.grade)
  }

  /** Roster items never overwrite a filled field, and never drop or
      replace an entry already in the map. */
  lemma {:induction false} RosterOnlyFills(t: Table, roster: seq<SignIn.RosterEntry>, id: string)
    requires id in t.entries
    ensures id in RosterTable(t, roster).entries
    ensures KeepsFilled(t.entries[id], RosterTable(t, roster).entries[id])
    decreases |roster|
  {
    if roster != [] {
      RosterOnlyFills(t, roster[..|roster| - 1], id);
    }
  }

  /** For an id in the directory: the entry is the last directory record
      with that id, its non-blank fields untouched by the roster, its
      e-mail the directory's and its source "known". */
  lemma KnownEntryKept(known: seq<KnownRecord>, roster: seq<SignIn.RosterEntry>, j: nat)
    requires j < |known| && known[j].id != ""
    requires forall i :: j < i < |known| ==> known[i].id != known[j].id
    ensures known[j].id in Combined(known, roster).entries
    ensures KeepsFilled(KnownEntry(known[j]), Combined(known, roster).entries[known[j].id])
  {
    KnownTableAt(known, j);
    RosterOnlyFills(KnownTable(known), roster, known[j].id);
  }

  /** Some directory record carries the id. */
  predicate InKnown(known: seq<KnownRecord>, id: string) {
    exists j :: 0 <= j < |known| && known[j].id == id
  }

  /** Some roster item carries the id once trimmed. */
  predicate InRoster(roster: seq<SignIn.RosterEntry>, id: string) {
    exists j :: 0 <= j < |roster| && Trim(roster[j].id) == id
  }

  lemma InKnownSnoc(known: seq<KnownRecord>, id: string)
    requires known != []
    ensures InKnown(known, id) <==> InKnown(known[..|known| - 1], id) || known[|known| - 1].id == id
  {
    var init := known[..|known| - 1];
    if InKnown(init, id) {
      var j :| 0 <= j < |init| && init[j].id == id;
      assert known[j] == init[j];
    }
    if InKnown(known, id) {
      var j :| 0 <= j < |known| && known[j].id == id;
      if j < |init| {
        assert init[j] == known[j];
      }
    }
  }

  lemma InRosterSnoc(roster: seq<SignIn.RosterEntry>, id: string)
    requires roster != []
    ensures InRoster(roster, id) <==> InRoster(roster[..|roster| - 1], id) || Trim(roster[|roster| - 1].id) == id
  {
    var init := roster[..|roster| - 1];
    if InRoster(init, id) {
      var j :| 0 <= j < |init| && Trim(init[j].id) == id;
      assert roster[j] == init[j];
    }
    if InRoster(roster, id) {
      var j :| 0 <= j < |roster| && Trim(roster[j].id) == id;
      if j < |init| {
        assert init[j] == roster[j];
      }
    }
  }

  lemma {:induction false} KnownIds(known: seq<KnownRecord>, id: string)
    ensures id in KnownTable(known).entries <==> id != "" && InKnown(known, id)
    decreases |known|
  {
    if known != [] {
      KnownIds(known[..|known| - 1], id);
      InKnownSnoc(known, id);
    }
  }

  /** The combined map holds exactly the non-blank directory ids and the
      non-blank trimmed roster ids. */
  lemma {:induction false} CombinedIds(known: seq<KnownRecord>, roster: seq<SignIn.RosterEntry>, id: string)
    ensures id in Combined(known, roster).entries <==> id != "" && (InKnown(known, id) || InRoster(roster, id))
    decreases |roster|
  {
    if roster == [] {
      KnownIds(known, id);
    } else {
      CombinedIds(known, roster[..|roster| - 1], id);
      InRosterSnoc(roster, id);
    }
  }

  /** The two forEach loops that fill the combined Map. */
  method BuildCombined(known: seq<KnownRecord>, roster: seq<SignIn.RosterEntry>)
    returns (order: seq<string>, entries: map<string, Entry>)
    ensures Table(order, entries) == Combined(known, roster)
  {
    order, entries := [], map[];
    var i := 0;
    while i < |known|
      invariant 0 <= i <= |known|
      invariant Table(order, entries) == KnownTable(known[..i])
    {
      assert known[..i + 1][..i] == known[..i];
      var rec := known[i];
      if rec.id != "" {
        if rec.id !in entries {
          order := order + [rec.id];
        }
        entries := entries[rec.id := KnownEntry(rec)];
      }
      i := i + 1;
    }
    assert known[..i] == known;
    var t0 := Table(order, entries);
    var k := 0;
    while k < |roster|
      invariant 0 <= k <= |roster|
      invariant Table(order, entries) == RosterTable(t0, roster[..k])
    {
      assert roster[..k + 1][..k] == roster[..k];
      var item := roster[k];
      var id := Trim(item.id);
      if id != "" {
        if id in entries {
          entries := entries[id := Fill(entries[id], item)];
        } else {
          order := order + [id];
          entries := entries[id := RosterNew(id, item)];
        }
      }
      k := k + 1;
    }
    assert roster[..k] == roster;
  }

  // ------------------------------------------------------------- scoring

  /** +6 exact, +4 prefix, +2 substring. */
  const SignInWeights: Weights := Weights(6, 4, 2)

  /** `${firstName || ''} ${lastName || ''}`.trim() */
  function FullName(e: Entry): string {
    Trim(e.firstName + " " + e.lastName)
  }

  function SearchFields(e: Entry): seq<string> {
    [Norm(e.id), Norm(e.firstName), Norm(e.lastName), Norm(FullName(e)), Norm(e.school), Norm(e.email), Norm(e.grade)]
  }

  /** raw.split(/\s+/).map(norm).filter(Boolean) */
  function Tokens(raw: string): seq<string> {
    var ws := Words(raw);
    NonEmpty(seq(|ws|, i requires 0 <= i < |ws| => Norm(ws[i])))
  }

  function ScoredAt(t: Table, tokens: seq<string>, k: nat): (s: Scored<Entry>)
    requires k < |t.order| && t.order[k] in t.entries
    ensures s.item == t.entries[t.order[k]]
  {
    var e := t.entries[t.order[k]];
    Scored(e, Score(tokens, SearchFields(e), SignInWeights))
  }

  /** Array.from(combined.values()) with their scores. */
  function ScoredAll(t: Table, tokens: seq<string>): (r: seq<Scored<Entry>>)
    requires Listed(t)
    ensures |r| == |t.order| && forall k :: 0 <= k < |t.order| ==> r[k] == ScoredAt(t, tokens, k)
  {
    seq(|t.order|, k requires 0 <= k < |t.order| => ScoredAt(t, tokens, k))
  }

  /** (a.fullName).localeCompare(b.fullName) || a.id.localeCompare(b.id),
      read as a `cmp(a, b) <= 0` test with code-unit order. */
  predicate NameThenIdLe(a: Entry, b: Entry) {
    StrLt(FullName(a), FullName(b)) || (FullName(a) == FullName(b) && StrLe(a.id, b.id))
  }

  function ByNameThenId(): (Entry, Entry) -> bool {
    (a: Entry, b: Entry) => NameThenIdLe(a, b)
  }

  function SignInOrder(): (Scored<Entry>, Scored<Entry>) -> bool {
    ScoreThen(ByNameThenId())
  }

  lemma NameThenIdTrans(a: Entry, b: Entry, c: Entry)
    requires NameThenIdLe(a, b) && NameThenIdLe(b, c)
    ensures NameThenIdLe(a, c)
  {
    var fa, fb, fc := FullName(a), FullName(b), FullName(c);
    StrLeRefl(fb);
    assert StrLe(fa, fb) && StrLe(fb, fc);
    StrLeTrans(fa, fb, fc);
    if fa == fc {
      StrLeAntisym(fa, fb);
      StrLeTrans(a.id, b.id, c.id);
    }
  }

  lemma NameThenIdTotal(a: Entry, b: Entry)
    ensures NameThenIdLe(a, b) || NameThenIdLe(b, a)
  {
    StrLeTotal(FullName(a), FullName(b));
    StrLeTotal(a.id, b.id);
  }

  lemma SignInOrderTotal()
    ensures TotalPreorder(SignInOrder())
  {
    forall a: Entry, b: Entry, c: Entry | NameThenIdLe(a, b) && NameThenIdLe(b, c)
      ensures NameThenIdLe(a, c)
    {
      NameThenIdTrans(a, b, c);
    }
    forall a: Entry, b: Entry
      ensures NameThenIdLe(a, b) || NameThenIdLe(b, a)
    {
      NameThenIdTotal(a, b);
    }
    assert TotalPreorder(ByNameThenId());
    ScoreThenTotal(ByNameThenId());
  }

  /** The entries with points, best first, at most n. */
  function RankedEntries(t: Table, tokens: seq<string>, n: nat): seq<Scored<Entry>>
    requires Listed(t)
  {
    Rank(ScoredAll(t, tokens), SignInOrder(), n)
  }

  // -------------------------------------------------------------- result

  /** A returned item: the entry and its label (score and fullName are
      dropped). */
  datatype Pick = Pick(entry: Entry, labelText: string)

  /** `${[full, id].filter(Boolean).join(' · ')}` plus ` (school • grade)`
      when either is non-blank. */
  function LabelOf(e: Entry): string {
    var full := FullName(e);
    var parts := (if full != "" then [full] else []) + (if e.id != "" then [e.id] else []);
    var meta := NonEmpty([Trim(e.school), Trim(e.grade)]);
    if parts == [] then e.id
    else Join(parts, " · ") + (if meta != [] then " (" + Join(meta, " • ") + ")" else "")
  }

  function PickOf(s: Scored<Entry>): Pick {
    Pick(s.item, LabelOf(s.item))
  }

  /** The label opens with the full name when there is one, else with the
      id; with neither it is blank. */
  lemma LabelLeads(e: Entry)
    ensures FullName(e) != "" ==> StartsWith(LabelOf(e), FullName(e))
    ensures FullName(e) == "" ==> StartsWith(LabelOf(e), e.id)
    ensures FullName(e) == "" && e.id == "" ==> LabelOf(e) == ""
  {
    var full := FullName(e);
    var parts := (if full != "" then [full] else []) + (if e.id != "" then [e.id] else []);
    if parts != [] {
      var lead := parts[0];
      var j := Join(parts, " · ");
      var rest := if |parts| == 1 then "" else " · " + Join(parts[1..], " · ");
      assert j == lead + rest;
      var meta := NonEmpty([Trim(e.school), Trim(e.grade)]);
      var tail := if meta != [] then " (" + Join(meta, " • ") + ")" else "";
      assert LabelOf(e) == lead + (rest + tail);
      assert (lead + (rest + tail))[..|lead|] == lead;
    }
  }

  /** The map dropping score and fullName. */
  function Picks(ranked: seq<Scored<Entry>>): (r: seq<Pick>)
    ensures |r| == |ranked| && forall k :: 0 <= k < |ranked| ==> r[k] == PickOf(ranked[k])
  {
    seq(|ranked|, k requires 0 <= k < |ranked| => PickOf(ranked[k]))
  }

  /** signInSuggestPeople(query, limit) over the directory list and the
      roster: [] for a blank query or one without tokens. */
  function SuggestFor(known: seq<KnownRecord>, roster: seq<SignIn.RosterEntry>, query: Cell, limit: Cell): (r: seq<Pick>)
    ensures CellText(query) == "" ==> r == []
    ensures |r| <= Limit(limit)
  {
    var raw := CellText(query);
    var tokens := Tokens(raw);
    if raw == "" || tokens == [] then []
    else
      var t := Combined(known, roster);
      CombinedKeyed(known, roster);
      var ranked := RankedEntries(t, tokens, Limit(limit));
      Picks(ranked)
  }

  predicate FromTable(t: Table, tokens: seq<string>, p: Pick) {
    p.entry.id in t.entries && p.entry == t.entries[p.entry.id]
    && AnyHit(tokens, SearchFields(p.entry)) && p.labelText == LabelOf(p.entry)
  }

  lemma PicksSound(t: Table, tokens: seq<string>, n: nat)
    requires WellKeyed(t)
    ensures forall p :: p in Picks(RankedEntries(t, tokens, n)) ==> FromTable(t, tokens, p)
  {
    var ranked := RankedEntries(t, tokens, n);
    RankedSound(t, tokens, n);
    var r := Picks(ranked);
    forall k | 0 <= k < |r|
      ensures FromTable(t, tokens, r[k])
    {
      assert ranked[k] in ranked;
      PickSound(t, tokens, ranked[k]);
    }
  }

  lemma PickSound(t: Table, tokens: seq<string>, x: Scored<Entry>)
    requires WellKeyed(t) && Matched(t, tokens, x)
    ensures FromTable(t, tokens, PickOf(x))
  {
    var k :| 0 <= k < |t.order| && x.item == t.entries[t.order[k]];
  }

  /** Each suggestion is an entry of the combined map, under its own id,
      that one of the query words occurs in, with its label. */
  lemma SuggestForSound(known: seq<KnownRecord>, roster: seq<SignIn.RosterEntry>, query: Cell, limit: Cell)
    ensures forall p :: p in SuggestFor(known, roster, query, limit) ==>
              FromTable(Combined(known, roster), Tokens(CellText(query)), p)
  {
    var raw := CellText(query);
    var tokens := Tokens(raw);
    if raw != "" && tokens != [] {
      CombinedKeyed(known, roster);
      PicksSound(Combined(known, roster), tokens, Limit(limit));
    }
  }

  /** The method: trim and tokenise, read the directory, merge, score each
      entry in a loop, sort and cut. */
  method SignInSuggestPeople(sh: Sheet, c: KnownCols, roster: seq<SignIn.RosterEntry>, query: Cell, limit: Cell)
    returns (r: seq<Pick>)
    ensures r == SuggestFor(KnownList(sh.data, c), roster, query, limit)
  {
    var raw := CellText(query);
    if raw == "" {
      return [];
    }
    var tokens := Tokens(raw);
    if tokens == [] {
      return [];
    }
    var known := FetchKnownStudents(sh, c);
    var order, entries := BuildCombined(known, roster);
    var t := Table(order, entries);
    CombinedKeyed(known, roster);
    var scored := ScoreEntries(t, tokens);
    var ranked := Take(SortBy(Positives(scored), SignInOrder()), Limit(limit));
    assert t == Combined(known, roster) && ranked == RankedEntries(t, tokens, Limit(limit));
    r := Picks(ranked);
  }

  /** The scoring pass: each entry's points from the token-by-field loop. */
  method ScoreEntries(t: Table, tokens: seq<string>) returns (scored: seq<Scored<Entry>>)
    requires Listed(t)
    ensures scored == ScoredAll(t, tokens)
  {
    scored := [];
    var k := 0;
    while k < |t.order|
      invariant 0 <= k <= |t.order|
      invariant scored == ScoredAll(t, tokens)[..k]
    {
      var e := t.entries[t.order[k]];
      var hs := SearchFields(e);
      var s := ScoreOf(tokens, hs, SignInWeights);
      assert Scored(e, s) == ScoredAll(t, tokens)[k];
      assert ScoredAll(t, tokens)[..k + 1] == ScoredAll(t, tokens)[..k] + [Scored(e, s)];
      scored := scored + [Scored(e, s)];
      k := k + 1;
    }
    assert ScoredAll(t, tokens)[..k] == ScoredAll(t, tokens);
  }

  // ------------------------------------------------------------- lemmas

  lemma RankedIn(t: Table, tokens: seq<string>, n: nat)
    requires Listed(t)
    ensures |RankedEntries(t, tokens, n)| <= n
    ensures forall x :: x in RankedEntries(t, tokens, n) ==> x in ScoredAll(t, tokens) && x.score > 0
  {
    SignInOrderTotal();
    RankMeaning(ScoredAll(t, tokens), SignInOrder(), n);
  }

  /** A scored entry listed in the table with a token in one of its
      fields. */
  predicate Matched(t: Table, tokens: seq<string>, x: Scored<Entry>)
    requires Listed(t)
  {
    (exists k :: 0 <= k < |t.order| && x.item == t.entries[t.order[k]])
    && AnyHit(tokens, SearchFields(x.item))
  }

  /** Every ranked entry is a listed entry of the combined map with
      points, which means one of the tokens occurs in one of its fields. */
  lemma RankedSound(t: Table, tokens: seq<string>, n: nat)
    requires Listed(t)
    ensures |RankedEntries(t, tokens, n)| <= n
    ensures forall x :: x in RankedEntries(t, tokens, n) ==> Matched(t, tokens, x)
  {
    var xs := ScoredAll(t, tokens);
    RankedIn(t, tokens, n);
    forall x | x in RankedEntries(t, tokens, n)
      ensures Matched(t, tokens, x)
    {
      var k :| 0 <= k < |xs| && xs[k] == x;
      assert x.item == t.entries[t.order[k]];
      ScorePositive(tokens, SearchFields(x.item), SignInWeights);
    }
  }

  /** Best score first, then full name, then id. */
  lemma RankedOrder(t: Table, tokens: seq<string>, n: nat)
    requires Listed(t)
    ensures forall i, j :: 0 <= i < j < |RankedEntries(t, tokens, n)| ==>
              SignInOrder()(RankedEntries(t, tokens, n)[i], RankedEntries(t, tokens, n)[j])
  {
    SignInOrderTotal();
    RankMeaning(ScoredAll(t, tokens), SignInOrder(), n);
  }

  lemma RankedFull(t: Table, tokens: seq<string>, n: nat, x: Scored<Entry>)
    requires Listed(t)
    requires x in ScoredAll(t, tokens) && x.score > 0 && x !in RankedEntries(t, tokens, n)
    ensures |RankedEntries(t, tokens, n)| == n
    ensures forall k :: 0 <= k < n ==> RankedEntries(t, tokens, n)[k].score >= x.score
  {
    SignInOrderTotal();
    RankMeaning(ScoredAll(t, tokens), SignInOrder(), n);
    forall k | 0 <= k < n
      ensures RankedEntries(t, tokens, n)[k].score >= x.score
    {
      assert SignInOrder()(RankedEntries(t, tokens, n)[k], x);
    }
  }

  /** An entry whose fields contain a token and that is left out means n
      entries were kept, none with a lower score. */
  lemma RankedComplete(t: Table, tokens: seq<string>, n: nat, id: string)
    requires WellKeyed(t) && id in t.entries
    requires AnyHit(tokens, SearchFields(t.entries[id]))
    requires forall k :: 0 <= k < |RankedEntries(t, tokens, n)| ==> RankedEntries(t, tokens, n)[k].item.id != id
    ensures |RankedEntries(t, tokens, n)| == n
    ensures forall k :: 0 <= k < n ==>
              RankedEntries(t, tokens, n)[k].score >= Score(tokens, SearchFields(t.entries[id]), SignInWeights)
  {
    var r := RankedEntries(t, tokens, n);
    var xs := ScoredAll(t, tokens);
    var p :| 0 <= p < |t.order| && t.order[p] == id;
    var x := xs[p];
    assert x.item == t.entries[id];
    ScorePositive(tokens, SearchFields(t.entries[id]), SignInWeights);
    assert x.item.id == id;
    assert forall k :: 0 <= k < |r| ==> r[k] != x;
    RankedFull(t, tokens, n, x);
  }
}
