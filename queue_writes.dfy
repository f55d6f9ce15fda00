// The queue's write operations on the `sign_in_log` sheet: claiming rows,
// marking rows processed by row number, and marking a day's rows
// processed by student ID.
module QueueWrites {
  import opened Wrappers
  import opened Strings
  import opened Cells
  import opened Utils
  import opened Columns
  import opened Scan
  import opened Queue

  /** Every admin column lies inside a sheet w columns wide. */
  predicate Fits(c: QueueCols, w: nat) {
    c.status < w && c.claimedBy < w && c.claimedAt < w && c.processedAt < w && c.contactId < w
  }

  /** The admin columns are pairwise distinct. */
  predicate AdminApart(c: QueueCols) {
    c.status != c.claimedBy && c.status != c.claimedAt && c.status != c.processedAt && c.status != c.contactId
    && c.claimedBy != c.claimedAt && c.claimedBy != c.processedAt && c.claimedBy != c.contactId
    && c.claimedAt != c.processedAt && c.claimedAt != c.contactId && c.processedAt != c.contactId
  }

  /** The column map of an ensured sheet fits its header and keeps the
      admin columns apart. */
  lemma EnsuredColsFit(h: Row)
    ensures Fits(EnsuredCols(h), |EnsuredHeader(h)|)
    ensures AdminApart(EnsuredCols(h))
  {
    var c := EnsuredCols(h);
    var keys := HeaderKeys(EnsuredHeader(h));
    EnsuredColsKeyed(h);
    assert Keyed(c, keys);
  }

  /** The requested row numbers: Number(n) of each argument, keeping the
      numbers of at least 2 (data rows). NaN and fractions are dropped. */
  function RowNumbers(args: seq<Cell>): (rows: seq<nat>)
    ensures |rows| <= |args|
    ensures forall k :: 0 <= k < |rows| ==> rows[k] >= 2
    ensures forall n: nat :: n in rows <==> n >= 2 && exists x :: x in args && NumberOf(x) == Some(n)
  {
    if args == [] then []
    else
      var n := NumberOf(args[0]);
      var rest := RowNumbers(args[1..]);
      assert forall x :: x in args[1..] ==> x in args;
      assert forall x :: x in args ==> x == args[0] || x in args[1..];
      (if n.Some? && n.value >= 2 then [n.value as nat] else []) + rest
  }

  // ------------------------------------------------------------ claimRows

  /** String(claimedByRaw || '').trim() || the effective user's email ||
      'unknown': never blank. */
  function Claimant(raw: Cell, email: string): (who: string)
    ensures who != ""
    ensures CellText(raw) != "" ==> who == CellText(raw)
    ensures CellText(raw) == "" && email != "" ==> who == email
    ensures CellText(raw) == "" && email == "" ==> who == "unknown"
  {
    if CellText(raw) != "" then CellText(raw) else if email != "" then email else "unknown"
  }

  /** The Status cell reads "processed", ignoring case and surrounding
      white space. */
  predicate IsProcessed(status: Cell) {
    ToLower(CellText(status)) == "processed"
  }

  lemma ClaimedLabel()
    ensures !IsProcessed(Text("Claimed"))
    ensures ToLower(Trim(StrOf(Text("Claimed")))) == "claimed"
  {
    LowerLabel("Claimed", "claimed");
  }

  /** The Status test of claimRows as a function value. The claim
      functions and lemmas below take the test as a parameter `done`, so
      that their proofs see only what they need of it: that a Status cell
      reading 'Claimed' does not pass. */
  function ProcessedTest(): Cell -> bool {
    (s: Cell) => IsProcessed(s)
  }

  lemma ProcessedTestClaimed()
    ensures !ProcessedTest()(Text(StatusLabel(Claimed)))
  {
    ClaimedLabel();
  }

  /** Claiming one sheet row rn: a row whose Status passes done is left
      alone, any other gets Status 'Claimed', ClaimedBy and ClaimedAt. */
  function ClaimStep(d: seq<Row>, rn: nat, c: QueueCols, who: string, now: Instant, w: nat, done: Cell -> bool): seq<Row>
    requires rn >= 2 && Fits(c, w)
  {
    if done(CellOf(d, rn - 2, c.status)) then d
    else
      var d1 := PutCell(d, rn - 2, c.status, Text(StatusLabel(Claimed)), w);
      var d2 := PutCell(d1, rn - 2, c.claimedBy, Text(who), w);
      PutCell(d2, rn - 2, c.claimedAt, now, w)
  }

  /** The rows after claiming rows in order. */
  function ClaimFold(d: seq<Row>, rows: seq<nat>, c: QueueCols, who: string, now: Instant, w: nat, done: Cell -> bool): seq<Row>
    requires forall k :: 0 <= k < |rows| ==> rows[k] >= 2
    requires Fits(c, w)
  {
    if rows == [] then d
    else ClaimStep(ClaimFold(d, rows[..|rows| - 1], c, who, now, w, done), rows[|rows| - 1], c, who, now, w, done)
  }

  /** What a cell reads after the claims: a cell of a claimed row whose
      Status did not pass done shows the claim; every other cell is as
      before. */
  function ClaimedCell(d: seq<Row>, rows: seq<nat>, c: QueueCols, who: string, now: Instant, done: Cell -> bool, r: nat, col: nat): Cell {
    if r + 2 in rows && !done(CellOf(d, r, c.status)) then ClaimValue(c, who, now, col, CellOf(d, r, col))
    else CellOf(d, r, col)
  }

  /** Cell col of a claimed row that held v: the three claim cells are
      written, every other cell keeps v. */
  function ClaimValue(c: QueueCols, who: string, now: Instant, col: nat, v: Cell): Cell {
    if col == c.status then Text(StatusLabel(Claimed))
    else if col == c.claimedBy then Text(who)
    else if col == c.claimedAt then now
    else v
  }

  /** One claim step: only the three cells of a row that did not pass
      done change. */
  lemma ClaimStepReads(d: seq<Row>, rn: nat, c: QueueCols, who: string, now: Instant, w: nat, done: Cell -> bool, r: nat, col: nat)
    requires rn >= 2 && Fits(c, w) && AdminApart(c)
    ensures CellOf(ClaimStep(d, rn, c, who, now, w, done), r, col) ==
              if r == rn - 2 && !done(CellOf(d, r, c.status)) then ClaimValue(c, who, now, col, CellOf(d, r, col))
              else CellOf(d, r, col)
  {
    if !done(CellOf(d, rn - 2, c.status)) {
      var e1 := PutCell(d, rn - 2, c.status, Text(StatusLabel(Claimed)), w);
      var e2 := PutCell(e1, rn - 2, c.claimedBy, Text(who), w);
      PutCellReads(d, rn - 2, c.status, Text(StatusLabel(Claimed)), w, r, col);
      PutCellReads(e1, rn - 2, c.claimedBy, Text(who), w, r, col);
      PutCellReads(e2, rn - 2, c.claimedAt, now, w, r, col);
    }
  }

  /** Every cell after claimRows, in terms of the sheet before it, for a
      Status test that the 'Claimed' label does not pass. */
  lemma {:induction false} ClaimReads(d: seq<Row>, rows: seq<nat>, c: QueueCols, who: string, now: Instant, w: nat,
                                      done: Cell -> bool, r: nat, col: nat)
    requires forall k :: 0 <= k < |rows| ==> rows[k] >= 2
    requires Fits(c, w) && AdminApart(c) && !done(Text(StatusLabel(Claimed)))
    ensures CellOf(ClaimFold(d, rows, c, who, now, w, done), r, col) == ClaimedCell(d, rows, c, who, now, done, r, col)
    decreases |rows|
  {
    if rows != [] {
      var p := rows[..|rows| - 1];
      var rn := rows[|rows| - 1];
      assert rows == p + [rn];
      var d1 := ClaimFold(d, p, c, who, now, w, done);
      assert ClaimFold(d, rows, c, who, now, w, done) == ClaimStep(d1, rn, c, who, now, w, done);
      ClaimReads(d, p, c, who, now, w, done, r, col);
      ClaimReads(d, p, c, who, now, w, done, r, c.status);
      ClaimReads(d, p, c, who, now, w, done, rn - 2, c.status);
      ClaimReadsStep(d, d1, p, rn, c, who, now, w, done, r, col);
    }
  }

  /** One more claim, on any rows that read as the claims of p so far. */
  lemma ClaimReadsStep(d: seq<Row>, d1: seq<Row>, p: seq<nat>, rn: nat, c: QueueCols, who: string, now: Instant, w: nat,
                       done: Cell -> bool, r: nat, col: nat)
    requires rn >= 2 && Fits(c, w) && AdminApart(c) && !done(Text(StatusLabel(Claimed)))
    requires CellOf(d1, r, col) == ClaimedCell(d, p, c, who, now, done, r, col)
    requires CellOf(d1, r, c.status) == ClaimedCell(d, p, c, who, now, done, r, c.status)
    requires CellOf(d1, rn - 2, c.status) == ClaimedCell(d, p, c, who, now, done, rn - 2, c.status)
    ensures CellOf(ClaimStep(d1, rn, c, who, now, w, done), r, col) == ClaimedCell(d, p + [rn], c, who, now, done, r, col)
  {
    assert done(CellOf(d1, rn - 2, c.status)) <==> done(CellOf(d, rn - 2, c.status));
    ClaimStepReads(d1, rn, c, who, now, w, done, r, col);
    assert (r + 2 in p + [rn]) <==> (r + 2 in p || r + 2 == rn);
    if r + 2 == rn && !done(CellOf(d, r, c.status)) && r + 2 in p {
      ClaimValueTwice(c, who, now, col, CellOf(d, r, col));
    }
  }

  /** Claiming a claimed row again writes the same cells. */
  lemma ClaimValueTwice(c: QueueCols, who: string, now: Instant, col: nat, v: Cell)
    ensures ClaimValue(c, who, now, col, ClaimValue(c, who, now, col, v)) == ClaimValue(c, who, now, col, v)
  {
  }

  /** A claim never changes whether a row's Status passes the test. */
  lemma ClaimKeepsProcessed(d: seq<Row>, rows: seq<nat>, c: QueueCols, who: string, now: Instant, w: nat, done: Cell -> bool, r: nat)
    requires forall k :: 0 <= k < |rows| ==> rows[k] >= 2
    requires Fits(c, w) && AdminApart(c) && !done(Text(StatusLabel(Claimed)))
    ensures done(CellOf(ClaimFold(d, rows, c, who, now, w, done), r, c.status)) <==> done(CellOf(d, r, c.status))
  {
    ClaimReads(d, rows, c, who, now, w, done, r, c.status);
  }

  /** failed: the rows whose Status passed done when their turn came, in
      request order. */
  function Refused(d: seq<Row>, rows: seq<nat>, c: QueueCols, who: string, now: Instant, w: nat, done: Cell -> bool): seq<nat>
    requires forall k :: 0 <= k < |rows| ==> rows[k] >= 2
    requires Fits(c, w)
  {
    if rows == [] then []
    else
      var p := rows[..|rows| - 1];
      var rn := rows[|rows| - 1];
      Refused(d, p, c, who, now, w, done) + if done(CellOf(ClaimFold(d, p, c, who, now, w, done), rn - 2, c.status)) then [rn] else []
  }

  /** claimRows reports exactly the requested rows that were already
      processed before it ran. */
  lemma {:induction false} RefusedExactly(d: seq<Row>, rows: seq<nat>, c: QueueCols, who: string, now: Instant, w: nat,
                                          done: Cell -> bool, r: nat)
    requires forall k :: 0 <= k < |rows| ==> rows[k] >= 2
    requires Fits(c, w) && AdminApart(c) && !done(Text(StatusLabel(Claimed)))
    ensures r + 2 in Refused(d, rows, c, who, now, w, done) <==> r + 2 in rows && done(CellOf(d, r, c.status))
    decreases |rows|
  {
    if rows != [] {
      var p := rows[..|rows| - 1];
      var last := rows[|rows| - 1];
      assert forall x :: x in rows <==> x in p || x == last;
      RefusedExactly(d, p, c, who, now, w, done, r);
      ClaimKeepsProcessed(d, p, c, who, now, w, done, last - 2);
    }
  }

  /** A claimed row is never Pending afterwards: it is Claimed, or
      Processed when ProcessedAt was already set. */
  lemma ClaimedNotPending(d: seq<Row>, rows: seq<nat>, c: QueueCols, who: string, now: Instant, w: nat, done: Cell -> bool, rn: nat)
    requires forall k :: 0 <= k < |rows| ==> rows[k] >= 2
    requires Fits(c, w) && AdminApart(c) && !done(Text(StatusLabel(Claimed)))
    requires rn in rows && !done(CellOf(d, rn - 2, c.status))
    ensures ClaimedRow(ClaimFold(d, rows, c, who, now, w, done), rn - 2, c, who)
  {
    ClaimReads(d, rows, c, who, now, w, done, rn - 2, c.status);
    ClaimReads(d, rows, c, who, now, w, done, rn - 2, c.claimedBy);
    ClaimedRowFrom(d, ClaimFold(d, rows, c, who, now, w, done), rows, c, who, now, done, rn - 2);
  }

  /** Rows that read as the claims: a claimed row whose Status did not
      pass done reads as claimed by who. */
  lemma ClaimedRowFrom(d: seq<Row>, d2: seq<Row>, rows: seq<nat>, c: QueueCols, who: string, now: Instant, done: Cell -> bool, r: nat)
    requires AdminApart(c)
    requires r + 2 in rows && !done(CellOf(d, r, c.status))
    requires CellOf(d2, r, c.status) == ClaimedCell(d, rows, c, who, now, done, r, c.status)
    requires CellOf(d2, r, c.claimedBy) == ClaimedCell(d, rows, c, who, now, done, r, c.claimedBy)
    ensures ClaimedRow(d2, r, c, who)
  {
    ClaimedReadsClaimed(CellOf(d2, r, c.processedAt), CellOf(d2, r, c.contactId));
  }

  /** Row r reads as not Pending and names the claimant. */
  predicate ClaimedRow(d: seq<Row>, r: nat, c: QueueCols, who: string) {
    EffectiveStatus(CellOf(d, r, c.processedAt), CellOf(d, r, c.contactId), CellOf(d, r, c.status)) != Pending
    && CellOf(d, r, c.claimedBy) == Text(who)
  }

  /** A Status cell reading 'Claimed' never gives Pending. */
  lemma ClaimedReadsClaimed(p: Cell, ci: Cell)
    ensures EffectiveStatus(p, ci, Text(StatusLabel(Claimed))) != Pending
  {
    ClaimedLabel();
  }

  /** One turn of claimRows' loop: skip a processed row, else write the
      claim. */
  method ClaimOne(sh: Sheet, rn: nat, c: QueueCols, who: string, now: Instant) returns (refused: bool)
    requires sh.Valid() && rn >= 2 && Fits(c, sh.Width())
    modifies sh
    ensures sh.Valid() && sh.header == old(sh.header)
    ensures refused == ProcessedTest()(CellOf(old(sh.data), rn - 2, c.status))
    ensures sh.data == ClaimStep(old(sh.data), rn, c, who, now, |sh.header|, ProcessedTest())
  {
    var cur := ToLower(CellText(CellOf(sh.data, rn - 2, c.status)));
    refused := cur == "processed";
    if !refused {
      sh.SetCell(rn, c.status, Text(StatusLabel(Claimed)));
      sh.SetCell(rn, c.claimedBy, Text(who));
      sh.SetCell(rn, c.claimedAt, now);
    }
  }

  /** The rows.forEach loop of claimRows, under the document lock. */
  method ClaimEach(sh: Sheet, rows: seq<nat>, c: QueueCols, who: string, now: Instant) returns (failed: seq<nat>)
    requires sh.Valid() && Fits(c, sh.Width())
    requires forall k :: 0 <= k < |rows| ==> rows[k] >= 2
    modifies sh
    ensures sh.Valid() && sh.header == old(sh.header)
    ensures sh.data == ClaimFold(old(sh.data), rows, c, who, now, |sh.header|, ProcessedTest())
    ensures failed == Refused(old(sh.data), rows, c, who, now, |sh.header|, ProcessedTest())
  {
    ghost var d1 := sh.data;
    var w := sh.Width();
    failed := [];
    var i := 0;
    while i < |rows|
      invariant 0 <= i <= |rows|
      invariant sh.Valid() && sh.header == old(sh.header) && w == |sh.header|
      invariant sh.data == ClaimFold(d1, rows[..i], c, who, now, w, ProcessedTest())
      invariant failed == Refused(d1, rows[..i], c, who, now, w, ProcessedTest())
    {
      failed := ClaimTurn(sh, d1, rows, i, c, who, now, failed);
      i := i + 1;
    }
    assert rows[..|rows|] == rows;
  }

  /** Turn i of the loop: claim rows[i] and extend failed. */
  method ClaimTurn(sh: Sheet, ghost d1: seq<Row>, rows: seq<nat>, i: nat, c: QueueCols, who: string, now: Instant,
                   failed0: seq<nat>) returns (failed: seq<nat>)
    requires sh.Valid() && Fits(c, sh.Width())
    requires forall k :: 0 <= k < |rows| ==> rows[k] >= 2
    requires i < |rows|
    requires sh.data == ClaimFold(d1, rows[..i], c, who, now, |sh.header|, ProcessedTest())
    requires failed0 == Refused(d1, rows[..i], c, who, now, |sh.header|, ProcessedTest())
    modifies sh
    ensures sh.Valid() && sh.header == old(sh.header)
    ensures sh.data == ClaimFold(d1, rows[..i + 1], c, who, now, |sh.header|, ProcessedTest())
    ensures failed == Refused(d1, rows[..i + 1], c, who, now, |sh.header|, ProcessedTest())
  {
    var rn := rows[i];
    ghost var e0 := sh.data;
    var refused := ClaimOne(sh, rn, c, who, now);
    failed := if refused then failed0 + [rn] else failed0;
    ClaimTurnFold(d1, rows, c, who, now, |sh.header|, ProcessedTest(), i, e0, sh.data, failed0, refused, failed);
  }

  /** The states of the loop before and after turn i, as folds. */
  lemma ClaimTurnFold(d: seq<Row>, rows: seq<nat>, c: QueueCols, who: string, now: Instant, w: nat, done: Cell -> bool, i: nat,
                      e0: seq<Row>, e1: seq<Row>, f0: seq<nat>, refused: bool, f1: seq<nat>)
    requires forall k :: 0 <= k < |rows| ==> rows[k] >= 2
    requires Fits(c, w) && i < |rows|
    requires e0 == ClaimFold(d, rows[..i], c, who, now, w, done) && f0 == Refused(d, rows[..i], c, who, now, w, done)
    requires e1 == ClaimStep(e0, rows[i], c, who, now, w, done) && refused == done(CellOf(e0, rows[i] - 2, c.status))
    requires f1 == if refused then f0 + [rows[i]] else f0
    ensures e1 == ClaimFold(d, rows[..i + 1], c, who, now, w, done) && f1 == Refused(d, rows[..i + 1], c, who, now, w, done)
  {
    ClaimSnoc(d, rows, c, who, now, w, done, i);
  }

  /** ClaimFold and Refused grow by one row number at a time. */
  lemma ClaimSnoc(d: seq<Row>, rows: seq<nat>, c: QueueCols, who: string, now: Instant, w: nat, done: Cell -> bool, i: nat)
    requires forall k :: 0 <= k < |rows| ==> rows[k] >= 2
    requires Fits(c, w) && i < |rows|
    ensures ClaimFold(d, rows[..i + 1], c, who, now, w, done)
            == ClaimStep(ClaimFold(d, rows[..i], c, who, now, w, done), rows[i], c, who, now, w, done)
    ensures Refused(d, rows[..i + 1], c, who, now, w, done)
            == Refused(d, rows[..i], c, who, now, w, done)
               + if done(CellOf(ClaimFold(d, rows[..i], c, who, now, w, done), rows[i] - 2, c.status)) then [rows[i]] else []
  {
    assert rows[..i + 1][..i] == rows[..i];
  }

  /** claimRows(rowIndices, claimedByRaw): with no usable row number it
      fails; otherwise it claims each row in turn and reports the rows it
      refused because they were already processed. */
  method ClaimRows(sh: Sheet, args: seq<Cell>, claimedByRaw: Cell, email: string, now: Instant)
    returns (r: Result<seq<nat>>)
    requires sh.Valid()
    modifies sh
    ensures sh.Valid() && sh.header == EnsuredHeader(old(sh.header))
    ensures Fits(EnsuredCols(old(sh.header)), |sh.header|)
    ensures RowNumbers(args) == [] ==>
              r == Err("No rows provided.") && sh.data == PadAll(old(sh.data), |sh.header|)
    ensures RowNumbers(args) != [] ==>
              r == Ok(Refused(PadAll(old(sh.data), |sh.header|), RowNumbers(args), EnsuredCols(old(sh.header)),
                              Claimant(claimedByRaw, email), now, |sh.header|, ProcessedTest()))
              && sh.data == ClaimFold(PadAll(old(sh.data), |sh.header|), RowNumbers(args), EnsuredCols(old(sh.header)),
                                      Claimant(claimedByRaw, email), now, |sh.header|, ProcessedTest())
  {
    ghost var h0 := sh.header;
    var c := EnsureSignInLog(sh);
    EnsuredColsFit(h0);
    var who := Claimant(claimedByRaw, email);
    var rows := RowNumbers(args);
    if rows == [] {
      return Err("No rows provided.");
    }
    var failed := ClaimEach(sh, rows, c, who, now);
    r := Ok(failed);
  }

  // -------------------------------------------------------- markProcessed

  /** Marking one sheet row rn: rows past getLastRow() are skipped;
      otherwise Status, ProcessedAt and ContactID are written. */
  function MarkStep(d: seq<Row>, rn: nat, c: QueueCols, contact: string, now: Instant, w: nat): seq<Row>
    requires rn >= 2 && Fits(c, w)
  {
    if rn > |d| + 1 then d
    else
      var d1 := PutCell(d, rn - 2, c.status, Text(StatusLabel(Processed)), w);
      var d2 := PutCell(d1, rn - 2, c.processedAt, now, w);
      PutCell(d2, rn - 2, c.contactId, Text(contact), w)
  }

  function MarkFold(d: seq<Row>, rows: seq<nat>, c: QueueCols, contact: string, now: Instant, w: nat): seq<Row>
    requires forall k :: 0 <= k < |rows| ==> rows[k] >= 2
    requires Fits(c, w)
  {
    if rows == [] then d
    else MarkStep(MarkFold(d, rows[..|rows| - 1], c, contact, now, w), rows[|rows| - 1], c, contact, now, w)
  }

  /** What a cell reads after markProcessed. */
  function MarkedCell(d: seq<Row>, rows: seq<nat>, c: QueueCols, contact: string, now: Instant, r: nat, col: nat): Cell {
    if r + 2 in rows && r < |d| then
      if col == c.status then Text(StatusLabel(Processed))
      else if col == c.processedAt then now
      else if col == c.contactId then Text(contact)
      else CellOf(d, r, col)
    else CellOf(d, r, col)
  }

  /** markProcessed never adds rows, and writes exactly the three cells of
      each requested row that exists. */
  lemma {:induction false} MarkReads(d: seq<Row>, rows: seq<nat>, c: QueueCols, contact: string, now: Instant, w: nat, r: nat, col: nat)
    requires forall k :: 0 <= k < |rows| ==> rows[k] >= 2
    requires Fits(c, w) && AdminApart(c)
    ensures |MarkFold(d, rows, c, contact, now, w)| == |d|
    ensures CellOf(MarkFold(d, rows, c, contact, now, w), r, col) == MarkedCell(d, rows, c, contact, now, r, col)
    decreases |rows|
  {
    if rows != [] {
      var p := rows[..|rows| - 1];
      var rn := rows[|rows| - 1];
      assert forall x :: x in rows <==> x in p || x == rn;
      var d1 := MarkFold(d, p, c, contact, now, w);
      MarkReads(d, p, c, contact, now, w, r, col);
      if rn <= |d1| + 1 {
        var e1 := PutCell(d1, rn - 2, c.status, Text(StatusLabel(Processed)), w);
        var e2 := PutCell(e1, rn - 2, c.processedAt, now, w);
        PutCellRows(d1, rn - 2, c.status, Text(StatusLabel(Processed)), w);
        PutCellRows(e1, rn - 2, c.processedAt, now, w);
        PutCellRows(e2, rn - 2, c.contactId, Text(contact), w);
        PutCellReads(d1, rn - 2, c.status, Text(StatusLabel(Processed)), w, r, col);
        PutCellReads(e1, rn - 2, c.processedAt, now, w, r, col);
        PutCellReads(e2, rn - 2, c.contactId, Text(contact), w, r, col);
      }
    }
  }

  /** Every marked row reads as Processed afterwards. */
  lemma MarkedIsProcessed(d: seq<Row>, rows: seq<nat>, c: QueueCols, contact: string, now: Instant, w: nat, rn: nat)
    requires forall k :: 0 <= k < |rows| ==> rows[k] >= 2
    requires Fits(c, w) && AdminApart(c)
    requires rn in rows && rn <= |d| + 1
    ensures var d2 := MarkFold(d, rows, c, contact, now, w);
            EffectiveStatus(CellOf(d2, rn - 2, c.processedAt), CellOf(d2, rn - 2, c.contactId), CellOf(d2, rn - 2, c.status)) == Processed
  {
    MarkReads(d, rows, c, contact, now, w, rn - 2, c.processedAt);
  }

  /** Marking the same rows again changes no cell. */
  lemma MarkIdempotent(d: seq<Row>, rows: seq<nat>, c: QueueCols, contact: string, now: Instant, w: nat, r: nat, col: nat)
    requires forall k :: 0 <= k < |rows| ==> rows[k] >= 2
    requires Fits(c, w) && AdminApart(c)
    ensures var d2 := MarkFold(d, rows, c, contact, now, w);
            CellOf(MarkFold(d2, rows, c, contact, now, w), r, col) == CellOf(d2, r, col)
  {
    var d2 := MarkFold(d, rows, c, contact, now, w);
    MarkReads(d, rows, c, contact, now, w, r, col);
    MarkReads(d2, rows, c, contact, now, w, r, col);
    MarkReads(d, rows, c, contact, now, w, r, c.status);
  }

  /** The result of a successful markProcessed: the number of requested
      rows (skipped ones included) and contactId || ''. */
  datatype Marked = Marked(rows: nat, contactId: Cell)

  /** The rows.forEach loop of markProcessed, under the document lock. */
  method MarkEach(sh: Sheet, rows: seq<nat>, c: QueueCols, contact: string, now: Instant)
    requires sh.Valid() && Fits(c, sh.Width())
    requires forall k :: 0 <= k < |rows| ==> rows[k] >= 2
    modifies sh
    ensures sh.Valid() && sh.header == old(sh.header)
    ensures sh.data == MarkFold(old(sh.data), rows, c, contact, now, |sh.header|)
  {
    ghost var d1 := sh.data;
    var w := sh.Width();
    var i := 0;
    while i < |rows|
      invariant 0 <= i <= |rows|
      invariant sh.Valid() && sh.header == old(sh.header) && w == |sh.header|
      invariant sh.data == MarkFold(d1, rows[..i], c, contact, now, w)
    {
      var rn := rows[i];
      assert rows[..i + 1][..i] == rows[..i];
      if rn <= sh.LastRow() {
        sh.SetCell(rn, c.status, Text(StatusLabel(Processed)));
        sh.SetCell(rn, c.processedAt, now);
        sh.SetCell(rn, c.contactId, Text(contact));
      }
      i := i + 1;
    }
    assert rows[..|rows|] == rows;
  }

  /** markProcessed(rowIndices, contactId). */
  method MarkProcessed(sh: Sheet, args: seq<Cell>, contactId: Cell, now: Instant) returns (r: Result<Marked>)
    requires sh.Valid()
    modifies sh
    ensures sh.Valid() && sh.header == EnsuredHeader(old(sh.header))
    ensures Fits(EnsuredCols(old(sh.header)), |sh.header|)
    ensures RowNumbers(args) == [] ==>
              r == Err("No rows to mark processed.") && sh.data == PadAll(old(sh.data), |sh.header|)
    ensures RowNumbers(args) != [] ==>
              r == Ok(Marked(|RowNumbers(args)|, if Truthy(contactId) then contactId else Empty))
              && sh.data == MarkFold(PadAll(old(sh.data), |sh.header|), RowNumbers(args), EnsuredCols(old(sh.header)),
                                     CellText(contactId), now, |sh.header|)
  {
    ghost var h0 := sh.header;
    var c := EnsureSignInLog(sh);
    EnsuredColsFit(h0);
    var rows := RowNumbers(args);
    if rows == [] {
      return Err("No rows to mark processed.");
    }
    MarkEach(sh, rows, c, CellText(contactId), now);
    r := Ok(Marked(|rows|, if Truthy(contactId) then contactId else Empty));
  }

  // --------------------------------------------------- markProcessedByIds

  /** idSet: String(x || '').trim() of each id, blanks dropped,
      upper-cased. */
  function IdSet(ids: seq<Cell>): set<string> {
    set v | v in ids && CellText(v) != "" :: ToUpper(CellText(v))
  }

  /** newStatus: String(statusOpt || 'Claimed'). */
  function NewStatus(statusOpt: Cell): (s: string)
    ensures s != ""
    ensures !Truthy(statusOpt) ==> s == StatusLabel(Claimed)
  {
    if Truthy(statusOpt) then StrOf(statusOpt) else StatusLabel(Claimed)
  }

  /** A row the call updates: its timestamp is on the requested day and its
      trimmed, upper-cased ID is one of those asked for. */
  predicate ByIdsMatch(row: Row, c: QueueCols, want: string, idSet: set<string>) {
    Listed(row, c, want) && ToUpper(Str(row, c.id)) in idSet
  }

  /** The ContactID list of a trimmed cell text. */
  function ContactParts(cur: string): seq<string> {
    if cur == "" then [] else ListItems(cur)
  }

  /** nextContact: the contact id is appended to the list unless it is
      blank or its trimmed text is already listed. */
  function NextContact(cur: string, cid: Cell): string {
    var parts := ContactParts(cur);
    if Truthy(cid) && CellText(cid) !in parts then Join(parts + [StrOf(cid)], ", ") else cur
  }

  /** A contact id without a comma or surrounding white space. */
  predicate PlainContact(cid: Cell) {
    Truthy(cid) ==> IsItem(StrOf(cid))
  }

  /** The list read back after the write holds the contact id once more
      only when it was missing: earlier entries are kept, in order. */
  lemma NextContactList(cur: string, cid: Cell)
    requires NoEdgeSpace(cur) && Truthy(cid) && PlainContact(cid)
    ensures CellText(Text(NextContact(cur, cid))) == NextContact(cur, cid)
    ensures ContactParts(NextContact(cur, cid)) ==
              if StrOf(cid) in ContactParts(cur) then ContactParts(cur) else ContactParts(cur) + [StrOf(cid)]
  {
    var x := StrOf(cid);
    var parts := ContactParts(cur);
    TrimOfTrimmed(x);
    assert CellText(cid) == x;
    if x in parts {
      TrimOfTrimmed(cur);
    } else {
      if cur != "" {
        ListItemsAreItems(cur);
      }
      var ps := parts + [x];
      assert forall i :: 0 <= i < |ps| ==> IsItem(ps[i]);
      JoinNoEdgeSpace(ps, ", ");
      TrimOfTrimmed(Join(ps, ", "));
      ListItemsOfJoin(ps);
    }
  }

  /** Writing the same contact id again leaves the ContactID cell as it
      is. */
  lemma NextContactIdempotent(cur: string, cid: Cell)
    requires NoEdgeSpace(cur) && PlainContact(cid)
    ensures CellText(Text(NextContact(cur, cid))) == NextContact(cur, cid)
    ensures NextContact(NextContact(cur, cid), cid) == NextContact(cur, cid)
  {
    if Truthy(cid) {
      NextContactList(cur, cid);
      TrimOfTrimmed(StrOf(cid));
    } else {
      TrimOfTrimmed(cur);
    }
  }

  /** curContact of a row: the trimmed ContactID text. */
  function RowContact(row: Row, c: QueueCols): (s: string)
    ensures NoEdgeSpace(s)
  {
    CellText(At(row, c.contactId))
  }

  /** A row after the writes of markProcessedByIds: Status, ContactID and,
      when stamp holds, ProcessedAt. */
  function ByIdsCells(row: Row, c: QueueCols, status: string, contact: string, stamp: bool, at: Instant): (r: Row)
    requires Fits(c, |row|)
    ensures |r| == |row|
  {
    var r1 := row[c.status := Text(status)][c.contactId := Text(contact)];
    if stamp then r1[c.processedAt := at] else r1
  }

  /** A matched row after the writes: the new Status, the ContactID list
      with the contact id added, and ProcessedAt when a contact id was
      given. */
  function ByIdsRow(row: Row, c: QueueCols, status: string, cid: Cell, now: Instant): (r: Row)
    requires Fits(c, |row|)
    ensures |r| == |row|
  {
    ByIdsCells(row, c, status, NextContact(RowContact(row, c), cid), Truthy(cid), now)
  }

  /** Every row is wide enough for the admin columns. */
  predicate Wide(d: seq<Row>, c: QueueCols) {
    forall i :: 0 <= i < |d| ==> Fits(c, |d[i]|)
  }

  function ByIdsTest(c: QueueCols, want: string, idSet: set<string>): Row -> bool {
    (r: Row) => ByIdsMatch(r, c, want, idSet)
  }

  /** toUpdate: the sheet rows matched, in sheet order. */
  function Matched(d: seq<Row>, c: QueueCols, want: string, idSet: set<string>): seq<nat> {
    PickMap(d, ByIdsTest(c, want, idSet), SheetRow())
  }

  /** The data rows after markProcessedByIds. */
  function ByIdsData(d: seq<Row>, c: QueueCols, want: string, idSet: set<string>, status: string, cid: Cell, now: Instant): (r: seq<Row>)
    requires Wide(d, c)
    ensures |r| == |d|
  {
    seq(|d|, i requires 0 <= i < |d| =>
      if ByIdsTest(c, want, idSet)(d[i]) then ByIdsRow(d[i], c, status, cid, now) else d[i])
  }

  /** toUpdate lists exactly the matched rows, each once, in sheet order. */
  lemma MatchedExactly(d: seq<Row>, c: QueueCols, want: string, idSet: set<string>, i: nat)
    ensures i + 2 in Matched(d, c, want, idSet) <==> i < |d| && ByIdsMatch(d[i], c, want, idSet)
    ensures forall k, l :: 0 <= k < l < |Matched(d, c, want, idSet)| ==>
              Matched(d, c, want, idSet)[k] < Matched(d, c, want, idSet)[l]
  {
    PickRowsMember(d, ByIdsTest(c, want, idSet), i);
  }

  /** The timestamp and ID columns are none of the columns written. */
  predicate DataApart(c: QueueCols) {
    OptAvoids(c.timestamp, c.status) && OptAvoids(c.timestamp, c.contactId) && OptAvoids(c.timestamp, c.processedAt)
    && OptAvoids(c.id, c.status) && OptAvoids(c.id, c.contactId) && OptAvoids(c.id, c.processedAt)
  }

  lemma EnsuredDataApart(h: Row)
    ensures DataApart(EnsuredCols(h))
  {
    var c := EnsuredCols(h);
    EnsuredColsKeyed(h);
    KeyedDistinct(c, HeaderKeys(EnsuredHeader(h)));
    assert Queue.Distinct(c);
    var admin := [c.status, c.claimedBy, c.claimedAt, c.processedAt, c.contactId];
    assert OptAvoids(c.timestamp, admin[0]) && OptAvoids(c.timestamp, admin[3]) && OptAvoids(c.timestamp, admin[4]);
    assert OptAvoids(c.id, admin[0]) && OptAvoids(c.id, admin[3]) && OptAvoids(c.id, admin[4]);
  }

  /** The cells ByIdsCells leaves alone read as before. */
  lemma ByIdsCellsAt(row: Row, c: QueueCols, status: string, contact: string, stamp: bool, at: Instant, k: nat)
    requires Fits(c, |row|)
    requires k != c.status && k != c.contactId && k != c.processedAt
    ensures At(ByIdsCells(row, c, status, contact, stamp, at), k) == At(row, k)
  {
  }

  /** The writes touch neither the timestamp nor the ID, so a matched row
      still matches afterwards. */
  lemma ByIdsRowMatches(row: Row, c: QueueCols, want: string, idSet: set<string>, status: string, cid: Cell, now: Instant)
    requires Fits(c, |row|) && DataApart(c)
    ensures ByIdsMatch(ByIdsRow(row, c, status, cid, now), c, want, idSet) == ByIdsMatch(row, c, want, idSet)
  {
    var row2 := ByIdsRow(row, c, status, cid, now);
    var contact := NextContact(RowContact(row, c), cid);
    assert Get(row2, c.timestamp) == Get(row, c.timestamp) by {
      if c.timestamp.Some? {
        ByIdsCellsAt(row, c, status, contact, Truthy(cid), now, c.timestamp.value);
      }
    }
    assert Get(row2, c.id) == Get(row, c.id) by {
      if c.id.Some? {
        ByIdsCellsAt(row, c, status, contact, Truthy(cid), now, c.id.value);
      }
    }
  }

  /** Running the same update twice is the same as running it once, when
      the contact id is a plain one (no comma, no surrounding space). */
  lemma ByIdsRowIdempotent(row: Row, c: QueueCols, status: string, cid: Cell, now: Instant)
    requires Fits(c, |row|) && AdminApart(c) && PlainContact(cid)
    ensures ByIdsRow(ByIdsRow(row, c, status, cid, now), c, status, cid, now) == ByIdsRow(row, c, status, cid, now)
  {
    var r1 := ByIdsRow(row, c, status, cid, now);
    var next := NextContact(RowContact(row, c), cid);
    NextContactIdempotent(RowContact(row, c), cid);
    assert RowContact(r1, c) == next by {
      assert r1[c.contactId] == Text(next);
    }
    ByIdsCellsTwice(row, c, status, next, Truthy(cid), now);
  }

  /** Writing the same cells again changes nothing. */
  lemma ByIdsCellsTwice(row: Row, c: QueueCols, status: string, contact: string, stamp: bool, at: Instant)
    requires Fits(c, |row|) && AdminApart(c)
    ensures ByIdsCells(ByIdsCells(row, c, status, contact, stamp, at), c, status, contact, stamp, at)
            == ByIdsCells(row, c, status, contact, stamp, at)
  {
  }

  /** Row i after the update. */
  lemma ByIdsDataAt(d: seq<Row>, c: QueueCols, want: string, idSet: set<string>, status: string, cid: Cell, now: Instant, i: nat)
    requires Wide(d, c) && i < |d|
    ensures ByIdsData(d, c, want, idSet, status, cid, now)[i] ==
              if ByIdsMatch(d[i], c, want, idSet) then ByIdsRow(d[i], c, status, cid, now) else d[i]
    ensures |ByIdsData(d, c, want, idSet, status, cid, now)[i]| == |d[i]|
  {
    assert ByIdsTest(c, want, idSet)(d[i]) == ByIdsMatch(d[i], c, want, idSet);
  }

  lemma ByIdsIdempotent(d: seq<Row>, c: QueueCols, want: string, idSet: set<string>, status: string, cid: Cell, now: Instant)
    requires Wide(d, c) && AdminApart(c) && DataApart(c) && PlainContact(cid)
    ensures Wide(ByIdsData(d, c, want, idSet, status, cid, now), c)
    ensures ByIdsData(ByIdsData(d, c, want, idSet, status, cid, now), c, want, idSet, status, cid, now)
            == ByIdsData(d, c, want, idSet, status, cid, now)
  {
    var d1 := ByIdsData(d, c, want, idSet, status, cid, now);
    forall i | 0 <= i < |d| ensures |d1[i]| == |d[i]| {
      ByIdsDataAt(d, c, want, idSet, status, cid, now, i);
    }
    assert Wide(d1, c);
    forall i | 0 <= i < |d|
      ensures ByIdsData(d1, c, want, idSet, status, cid, now)[i] == d1[i]
    {
      ByIdsDataAt(d, c, want, idSet, status, cid, now, i);
      ByIdsDataAt(d1, c, want, idSet, status, cid, now, i);
      if ByIdsMatch(d[i], c, want, idSet) {
        ByIdsRowMatches(d[i], c, want, idSet, status, cid, now);
        ByIdsRowIdempotent(d[i], c, status, cid, now);
      }
    }
  }

  /** markProcessedByIds' result: { matched, rows }. */
  datatype ByIdsResult = ByIdsResult(matched: nat, rows: seq<nat>)

  /** The ContactID text a matched row gets. */
  function ContactMaker(c: QueueCols, cid: Cell): Row -> string {
    (r: Row) => NextContact(RowContact(r, c), cid)
  }

  /** The maps hold an entry for exactly the rows of toUpdate (ProcessedAt
      only when stamping), with the values the scan computes. */
  ghost predicate Recorded(toUpdate: seq<nat>, statusOf: map<nat, string>, contactOf: map<nat, string>,
                     processedOf: map<nat, Instant>, vals: seq<Row>, next: Row -> string,
                     status: string, stamp: bool, now: Instant) {
    (forall rn :: rn in statusOf <==> rn in toUpdate)
    && (forall rn :: rn in contactOf <==> rn in toUpdate)
    && (forall rn :: rn in processedOf <==> stamp && rn in toUpdate)
    && (forall rn :: rn in statusOf ==> statusOf[rn] == status)
    && (forall rn :: rn in processedOf ==> processedOf[rn] == now)
    && (forall rn :: rn in contactOf ==> 2 <= rn < |vals| + 2 && contactOf[rn] == next(vals[rn - 2]))
  }

  lemma RecordedSnoc(toUpdate: seq<nat>, statusOf: map<nat, string>, contactOf: map<nat, string>,
                     processedOf: map<nat, Instant>, vals: seq<Row>, next: Row -> string,
                     status: string, stamp: bool, now: Instant, i: nat)
    requires i < |vals|
    requires Recorded(toUpdate, statusOf, contactOf, processedOf, vals, next, status, stamp, now)
    ensures Recorded(toUpdate + [i + 2], statusOf[i + 2 := status], contactOf[i + 2 := next(vals[i])],
                     if stamp then processedOf[i + 2 := now] else processedOf, vals, next, status, stamp, now)
  {
  }

  /** One turn of the scan: a matched row is recorded under its sheet row
      number. */
  method ScanRow(vals: seq<Row>, i: nat, test: Row -> bool, next: Row -> string, status: string, stamp: bool, now: Instant,
                 toUpdate: seq<nat>, statusOf: map<nat, string>, contactOf: map<nat, string>, processedOf: map<nat, Instant>)
    returns (toUpdate': seq<nat>, statusOf': map<nat, string>, contactOf': map<nat, string>, processedOf': map<nat, Instant>)
    requires i < |vals|
    requires Recorded(toUpdate, statusOf, contactOf, processedOf, vals, next, status, stamp, now)
    ensures toUpdate' == toUpdate + if test(vals[i]) then [i + 2] else []
    ensures Recorded(toUpdate', statusOf', contactOf', processedOf', vals, next, status, stamp, now)
  {
    toUpdate', statusOf', contactOf', processedOf' := toUpdate, statusOf, contactOf, processedOf;
    var row := vals[i];
    var rn := i + 2;
    if test(row) {
      RecordedSnoc(toUpdate, statusOf, contactOf, processedOf, vals, next, status, stamp, now, i);
      toUpdate' := toUpdate + [rn];
      statusOf' := statusOf[rn := status];
      contactOf' := contactOf[rn := next(row)];
      if stamp {
        processedOf' := processedOf[rn := now];
      }
    }
  }

  /** The scan of markProcessedByIds: toUpdate and the maps of new Status,
      ContactID and ProcessedAt values by sheet row; test is the row match
      and next the ContactID text of a matched row. */
  method ScanByIds(vals: seq<Row>, test: Row -> bool, next: Row -> string, status: string, stamp: bool, now: Instant)
    returns (toUpdate: seq<nat>, statusOf: map<nat, string>, contactOf: map<nat, string>, processedOf: map<nat, Instant>)
    ensures toUpdate == PickMap(vals, test, SheetRow())
    ensures Recorded(toUpdate, statusOf, contactOf, processedOf, vals, next, status, stamp, now)
  {
    toUpdate, statusOf, contactOf, processedOf := [], map[], map[], map[];
    var i := 0;
    while i < |vals|
      invariant 0 <= i <= |vals|
      invariant toUpdate == PickMap(vals[..i], test, SheetRow())
      invariant Recorded(toUpdate, statusOf, contactOf, processedOf, vals, next, status, stamp, now)
    {
      PickMapSnoc(vals, i, test, SheetRow());
      toUpdate, statusOf, contactOf, processedOf :=
        ScanRow(vals, i, test, next, status, stamp, now, toUpdate, statusOf, contactOf, processedOf);
      i := i + 1;
    }
    PickMapAll(vals, test, SheetRow());
  }

  /** The writes of one row rn of toUpdate. */
  method WriteRowByIds(sh: Sheet, rn: nat, c: QueueCols, sv: string, cv: string, stamp: bool, pv: Instant)
    requires sh.Valid() && Fits(c, sh.Width()) && 2 <= rn < |sh.data| + 2
    modifies sh
    ensures sh.Valid() && sh.header == old(sh.header)
    ensures sh.data == old(sh.data)[rn - 2 := ByIdsCells(old(sh.data)[rn - 2], c, sv, cv, stamp, pv)]
  {
    var w := sh.Width();
    PutCellInRow(sh.data, rn - 2, c.status, Text(sv), w);
    sh.SetCell(rn, c.status, Text(sv));
    PutCellInRow(sh.data, rn - 2, c.contactId, Text(cv), w);
    sh.SetCell(rn, c.contactId, Text(cv));
    if stamp {
      PutCellInRow(sh.data, rn - 2, c.processedAt, pv, w);
      sh.SetCell(rn, c.processedAt, pv);
    }
  }

  /** The data after the write loop has handled the sheet rows of rows,
      each row rewritten from its value before the loop; next gives the
      new ContactID text of a row. */
  function WrittenByIds(d: seq<Row>, rows: seq<nat>, c: QueueCols, status: string, next: Row -> string,
                        stamp: bool, now: Instant): (r: seq<Row>)
    requires Wide(d, c)
    requires forall k :: 0 <= k < |rows| ==> 2 <= rows[k] < |d| + 2
    ensures |r| == |d|
  {
    if rows == [] then d
    else
      var rn := rows[|rows| - 1];
      WrittenByIds(d, rows[..|rows| - 1], c, status, next, stamp, now)[rn - 2 := ByIdsCells(d[rn - 2], c, status, next(d[rn - 2]), stamp, now)]
  }

  /** A row is rewritten exactly when its sheet row number was handled. */
  lemma {:induction false} WrittenByIdsAt(d: seq<Row>, rows: seq<nat>, c: QueueCols, status: string, next: Row -> string,
                                          stamp: bool, now: Instant, i: nat)
    requires Wide(d, c)
    requires forall k :: 0 <= k < |rows| ==> 2 <= rows[k] < |d| + 2
    requires i < |d|
    ensures WrittenByIds(d, rows, c, status, next, stamp, now)[i]
            == if i + 2 in rows then ByIdsCells(d[i], c, status, next(d[i]), stamp, now) else d[i]
  {
    if rows != [] {
      var p := rows[..|rows| - 1];
      var rn := rows[|rows| - 1];
      WrittenByIdsAt(d, p, c, status, next, stamp, now, i);
      assert rows == p + [rn];
      assert i + 2 in rows <==> i + 2 in p || i + 2 == rn;
    }
  }

  lemma WrittenByIdsSnoc(d: seq<Row>, rows: seq<nat>, c: QueueCols, status: string, next: Row -> string,
                         stamp: bool, now: Instant, j: nat)
    requires Wide(d, c)
    requires forall k :: 0 <= k < |rows| ==> 2 <= rows[k] < |d| + 2
    requires j < |rows|
    ensures WrittenByIds(d, rows[..j + 1], c, status, next, stamp, now)
            == WrittenByIds(d, rows[..j], c, status, next, stamp, now)[rows[j] - 2 := ByIdsCells(d[rows[j] - 2], c, status, next(d[rows[j] - 2]), stamp, now)]
  {
    assert rows[..j + 1][..j] == rows[..j];
  }

  /** One turn of the write loop: the row's values are looked up in the
      maps, with the defaults `|| status`, `|| ''` and `|| now`. */
  method WriteMatched(sh: Sheet, rn: nat, statusOf: map<nat, string>, contactOf: map<nat, string>,
                      processedOf: map<nat, Instant>, c: QueueCols, status: string, next: Row -> string,
                      stamp: bool, now: Instant)
    requires sh.Valid() && Fits(c, sh.Width()) && 2 <= rn < |sh.data| + 2
    requires rn in statusOf ==> statusOf[rn] == status
    requires status != ""
    requires rn in contactOf && contactOf[rn] == next(sh.data[rn - 2])
    requires rn in processedOf ==> processedOf[rn] == now
    modifies sh
    ensures sh.Valid() && sh.header == old(sh.header)
    ensures sh.data == old(sh.data)[rn - 2 := ByIdsCells(old(sh.data)[rn - 2], c, status, next(old(sh.data)[rn - 2]), stamp, now)]
  {
    var sv := if rn in statusOf && statusOf[rn] != "" then statusOf[rn] else status;
    var cv := if rn in contactOf && contactOf[rn] != "" then contactOf[rn] else "";
    var pv := if rn in processedOf then processedOf[rn] else now;
    WriteRowByIds(sh, rn, c, sv, cv, stamp, pv);
  }

  /** The write loop of markProcessedByIds, under the document lock. */
  method WriteByIds(sh: Sheet, toUpdate: seq<nat>, statusOf: map<nat, string>, contactOf: map<nat, string>,
                    processedOf: map<nat, Instant>, c: QueueCols, status: string, next: Row -> string,
                    stamp: bool, now: Instant)
    requires sh.Valid() && Fits(c, sh.Width())
    requires forall k :: 0 <= k < |toUpdate| ==> 2 <= toUpdate[k] < |sh.data| + 2
    requires forall k, l :: 0 <= k < l < |toUpdate| ==> toUpdate[k] < toUpdate[l]
    requires forall rn :: rn in statusOf ==> statusOf[rn] == status
    requires status != ""
    requires forall rn :: rn in toUpdate ==> rn in contactOf && contactOf[rn] == next(sh.data[rn - 2])
    requires forall rn :: rn in processedOf ==> processedOf[rn] == now
    modifies sh
    ensures sh.Valid() && sh.header == old(sh.header)
    ensures sh.data == WrittenByIds(old(sh.data), toUpdate, c, status, next, stamp, now)
  {
    ghost var d0 := sh.data;
    assert Wide(d0, c);
    var j := 0;
    while j < |toUpdate|
      invariant 0 <= j <= |toUpdate|
      invariant sh.Valid() && sh.header == old(sh.header)
      invariant sh.data == WrittenByIds(d0, toUpdate[..j], c, status, next, stamp, now)
    {
      var rn := toUpdate[j];
      assert rn !in toUpdate[..j];
      WrittenByIdsAt(d0, toUpdate[..j], c, status, next, stamp, now, rn - 2);
      WrittenByIdsSnoc(d0, toUpdate, c, status, next, stamp, now, j);
      WriteMatched(sh, rn, statusOf, contactOf, processedOf, c, status, next, stamp, now);
      j := j + 1;
    }
    assert toUpdate[..|toUpdate|] == toUpdate;
  }

  /** The sheet rows of the matches lie inside the data. */
  lemma MatchedInside(d: seq<Row>, c: QueueCols, want: string, idSet: set<string>)
    ensures forall k :: 0 <= k < |Matched(d, c, want, idSet)| ==> 2 <= Matched(d, c, want, idSet)[k] < |d| + 2
  {
    var m := Matched(d, c, want, idSet);
    var idx := Where(d, ByIdsTest(c, want, idSet));
    assert forall k :: 0 <= k < |m| ==> m[k] == idx[k] + 2;
  }

  lemma WrittenMatchedAt(d: seq<Row>, c: QueueCols, want: string, idSet: set<string>, status: string, cid: Cell, now: Instant, i: nat)
    requires Wide(d, c) && i < |d|
    requires forall k :: 0 <= k < |Matched(d, c, want, idSet)| ==> 2 <= Matched(d, c, want, idSet)[k] < |d| + 2
    ensures WrittenByIds(d, Matched(d, c, want, idSet), c, status, ContactMaker(c, cid), Truthy(cid), now)[i]
            == ByIdsData(d, c, want, idSet, status, cid, now)[i]
  {
    WrittenByIdsAt(d, Matched(d, c, want, idSet), c, status, ContactMaker(c, cid), Truthy(cid), now, i);
    ByIdsDataAt(d, c, want, idSet, status, cid, now, i);
    MatchedExactly(d, c, want, idSet, i);
    assert ContactMaker(c, cid)(d[i]) == NextContact(RowContact(d[i], c), cid);
  }

  /** Writing the matched rows, each with its contact list extended, gives
      the data markProcessedByIds promises. */
  lemma WrittenMatched(d: seq<Row>, c: QueueCols, want: string, idSet: set<string>, status: string, cid: Cell, now: Instant)
    requires Wide(d, c)
    ensures forall k :: 0 <= k < |Matched(d, c, want, idSet)| ==> 2 <= Matched(d, c, want, idSet)[k] < |d| + 2
    ensures WrittenByIds(d, Matched(d, c, want, idSet), c, status, ContactMaker(c, cid), Truthy(cid), now)
            == ByIdsData(d, c, want, idSet, status, cid, now)
  {
    MatchedInside(d, c, want, idSet);
    forall i | 0 <= i < |d|
      ensures WrittenByIds(d, Matched(d, c, want, idSet), c, status, ContactMaker(c, cid), Truthy(cid), now)[i]
              == ByIdsData(d, c, want, idSet, status, cid, now)[i]
    {
      WrittenMatchedAt(d, c, want, idSet, status, cid, now, i);
    }
  }

  /** The scan and the writes on an ensured sheet. */
  method UpdateByIds(sh: Sheet, c: QueueCols, want: string, idSet: set<string>, status: string, cid: Cell, now: Instant)
    returns (toUpdate: seq<nat>)
    requires sh.Valid() && Fits(c, sh.Width()) && status != ""
    modifies sh
    ensures sh.Valid() && sh.header == old(sh.header) && Wide(old(sh.data), c)
    ensures toUpdate == Matched(old(sh.data), c, want, idSet)
    ensures sh.data == ByIdsData(old(sh.data), c, want, idSet, status, cid, now)
  {
    var vals := sh.data;
    assert Wide(vals, c);
    var test := ByIdsTest(c, want, idSet);
    var statusOf, contactOf, processedOf;
    toUpdate, statusOf, contactOf, processedOf := ScanByIds(vals, test, ContactMaker(c, cid), status, Truthy(cid), now);
    forall i: nat | true
      ensures i + 2 in toUpdate <==> i < |vals| && test(vals[i])
    {
      PickRowsMember(vals, test, i);
    }
    PickRowsMember(vals, test, 0);
    WrittenMatched(vals, c, want, idSet, status, cid, now);
    if toUpdate == [] {
      return;
    }
    WriteByIds(sh, toUpdate, statusOf, contactOf, processedOf, c, status, ContactMaker(c, cid), Truthy(cid), now);
  }

  /** markProcessedByIds(dateStr, ids, contactId, statusOpt). With no ID
      it fails before touching the sheet; otherwise every row of the day
      whose ID was asked for gets the new Status, the contact id added to
      its ContactID list and, when a contact id is given, ProcessedAt. */
  method MarkProcessedByIds(sh: Sheet, dateCell: Cell, ids: seq<Cell>, contactId: Cell, statusOpt: Cell, today: Day, now: Instant)
    returns (r: Result<ByIdsResult>)
    requires sh.Valid()
    modifies sh
    ensures sh.Valid()
    ensures IdSet(ids) == {} ==> r == Err("No IDs provided.") && sh.header == old(sh.header) && sh.data == old(sh.data)
    ensures IdSet(ids) != {} ==>
              sh.header == EnsuredHeader(old(sh.header))
              && Wide(PadAll(old(sh.data), |sh.header|), EnsuredCols(old(sh.header)))
              && r == Ok(ByIdsResult(|Matched(PadAll(old(sh.data), |sh.header|), EnsuredCols(old(sh.header)), RequestDay(dateCell, today), IdSet(ids))|,
                                     Matched(PadAll(old(sh.data), |sh.header|), EnsuredCols(old(sh.header)), RequestDay(dateCell, today), IdSet(ids))))
              && sh.data == ByIdsData(PadAll(old(sh.data), |sh.header|), EnsuredCols(old(sh.header)), RequestDay(dateCell, today),
                                      IdSet(ids), NewStatus(statusOpt), contactId, now)
  {
    var want := RequestDay(dateCell, today);
    var idSet := IdSet(ids);
    var status := NewStatus(statusOpt);
    if idSet == {} {
      return Err("No IDs provided.");
    }
    ghost var h0 := sh.header;
    var c := EnsureSignInLog(sh);
    EnsuredColsFit(h0);
    if sh.LastRow() < 2 {
      assert Wide(sh.data, c);
      assert Matched(sh.data, c, want, idSet) == [];
      assert ByIdsData(sh.data, c, want, idSet, status, contactId, now) == [];
      return Ok(ByIdsResult(0, []));
    }
    var toUpdate := UpdateByIds(sh, c, want, idSet, status, contactId, now);
    r := Ok(ByIdsResult(|toUpdate|, toUpdate));
  }
}
