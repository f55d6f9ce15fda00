// Tolerant header resolution shared by every sheet the scripts own: header
// texts are normalised into keys, a column is found through a list of
// aliases, and columns a sheet lacks are appended to the right of its
// header.
module Columns {
  import opened Wrappers
  import opened Strings
  import opened Cells

  predicate IsKeyChar(c: char) { IsLowerAscii(c) || IsDigit(c) }

  /** Keep only [a-z0-9]. */
  function KeepKeyChars(s: string): (r: string)
    ensures forall i :: 0 <= i < |r| ==> IsKeyChar(r[i])
    ensures |r| <= |s|
  {
    if s == [] then []
    else if IsKeyChar(s[0]) then [s[0]] + KeepKeyChars(s[1..])
    else KeepKeyChars(s[1..])
  }

  /** _normKey_(s) and reportsNormalize_(s): lower-cased with every
      character outside [a-z0-9] removed. */
  function NormKey(s: string): (r: string)
    ensures forall i :: 0 <= i < |r| ==> IsKeyChar(r[i])
  {
    KeepKeyChars(ToLower(s))
  }

  lemma {:induction false} KeepKeyCharsOfKey(s: string)
    requires forall i :: 0 <= i < |s| ==> IsKeyChar(s[i])
    ensures KeepKeyChars(s) == s
  {
    if s != [] {
      KeepKeyCharsOfKey(s[1..]);
    }
  }

  /** Normalising a key again changes nothing. */
  lemma NormKeyIdempotent(s: string)
    ensures NormKey(NormKey(s)) == NormKey(s)
  {
    var k := NormKey(s);
    assert ToLower(k) == k;
    KeepKeyCharsOfKey(k);
  }

  /** A header name that is already trimmed and lower-cases to a key. */
  lemma NormKeyOfName(w: string, k: string)
    requires NoEdgeSpace(w) && ToLower(w) == k
    requires forall i :: 0 <= i < |k| ==> IsKeyChar(k[i])
    ensures NormKey(Trim(w)) == k && NormKey(CellText(Text(w))) == k
  {
    TrimOfTrimmed(w);
    KeepKeyCharsOfKey(k);
    CellTextOfText(w);
  }

  /** The keys of the column names more than one sheet seeds. */
  lemma KeyOfContactID() ensures NormKey(CellText(Text("ContactID"))) == "contactid" { NormKeyOfName("ContactID", "contactid"); }
  lemma KeyOfCreatedAt() ensures NormKey(CellText(Text("CreatedAt"))) == "createdat" { NormKeyOfName("CreatedAt", "createdat"); }
  lemma KeyOfEditedAt() ensures NormKey(CellText(Text("EditedAt"))) == "editedat" { NormKeyOfName("EditedAt", "editedat"); }

  /** Normalised header keys of a header row. */
  function HeaderKeys(header: Row): (keys: seq<string>)
    ensures |keys| == |header|
  {
    seq(|header|, i requires 0 <= i < |header| => NormKey(CellText(header[i])))
  }

  /** new Map(keys.map((k, i) => [k, i])).get(k): the last column with key
      k, since a later duplicate replaces an earlier one. */
  function Find(keys: seq<string>, k: string): (r: Option<nat>)
    ensures r.Some? ==> r.value < |keys| && keys[r.value] == k
    ensures r.Some? ==> forall j :: r.value < j < |keys| ==> keys[j] != k
    ensures r.None? <==> k !in keys
  {
    if keys == [] then None
    else if keys[|keys| - 1] == k then Some(|keys| - 1)
    else Find(keys[..|keys| - 1], k)
  }

  /** The column with key k and no later one with it is the one found. */
  lemma FindAt(keys: seq<string>, k: string, i: nat)
    requires i < |keys| && keys[i] == k && forall j :: i < j < |keys| ==> keys[j] != k
    ensures Find(keys, k) == Some(i)
  {
  }

  /** idx.get(a0) ?? idx.get(a1) ?? ...: the first alias that names a
      column. */
  function Resolve(keys: seq<string>, aliases: seq<string>): (r: Option<nat>)
    ensures r.Some? ==> r.value < |keys| && keys[r.value] in aliases
    ensures r.None? <==> forall a :: a in aliases ==> a !in keys
  {
    if aliases == [] then None
    else
      match Find(keys, aliases[0])
      case Some(i) => Some(i)
      case None => Resolve(keys, aliases[1..])
  }

  /** Columns found through disjoint alias lists are distinct. */
  lemma ResolveDistinct(keys: seq<string>, a: seq<string>, b: seq<string>)
    requires forall x :: x in a ==> x !in b
    requires Resolve(keys, a).Some? && Resolve(keys, b).Some?
    ensures Resolve(keys, a).value != Resolve(keys, b).value
  {
  }

  /** Resolution only looks at the keys: appending columns whose keys are
      none of the aliases leaves it unchanged. */
  lemma {:induction false} ResolveAppendOther(keys: seq<string>, extra: seq<string>, aliases: seq<string>)
    requires forall x :: x in extra ==> x !in aliases
    ensures Resolve(keys + extra, aliases) == Resolve(keys, aliases)
    decreases |aliases|
  {
    if aliases != [] {
      FindAppendOther(keys, extra, aliases[0]);
      ResolveAppendOther(keys, extra, aliases[1..]);
    }
  }

  lemma {:induction false} FindAppendOther(keys: seq<string>, extra: seq<string>, k: string)
    requires k !in extra
    ensures Find(keys + extra, k) == Find(keys, k)
    decreases |extra|
  {
    if extra != [] {
      var e := extra[..|extra| - 1];
      assert (keys + extra)[..|keys + extra| - 1] == keys + e;
      FindAppendOther(keys, e, k);
    } else {
      assert keys + extra == keys;
    }
  }

  // ------------------------------------------- appending missing columns

  /** The header names of the columns still unresolved, in field order:
      `want.filter(k => C[k] == null)`. */
  function Missing(cols: seq<Option<nat>>, names: seq<string>): (r: seq<string>)
    requires |cols| == |names|
    ensures forall x :: x in r ==> x in names
    ensures forall i :: 0 <= i < |cols| && cols[i].None? ==> names[i] in r
    ensures (forall i :: 0 <= i < |cols| ==> cols[i].Some?) ==> r == []
  {
    if cols == [] then []
    else if cols[0].None? then [names[0]] + Missing(cols[1..], names[1..])
    else Missing(cols[1..], names[1..])
  }

  /** Every name listed as missing belongs to an unresolved column. */
  lemma {:induction false} MissingFrom(cols: seq<Option<nat>>, names: seq<string>, x: string)
    requires |cols| == |names| && x in Missing(cols, names)
    ensures exists i :: 0 <= i < |cols| && cols[i].None? && names[i] == x
  {
    if cols[0].None? && names[0] == x {
    } else {
      MissingFrom(cols[1..], names[1..], x);
      var i :| 0 <= i < |cols| - 1 && cols[1..][i].None? && names[1..][i] == x;
      assert cols[i + 1].None? && names[i + 1] == x;
    }
  }

  function TextCells(names: seq<string>): (r: Row)
    ensures |r| == |names| && forall i :: 0 <= i < |names| ==> r[i] == Text(names[i])
  {
    seq(|names|, i requires 0 <= i < |names| => Text(names[i]))
  }

  /** C[k] = C[k] ?? idx2.get(reKey[k]) after the new header cells have
      been written. */
  function Refill(cols: seq<Option<nat>>, keys2: seq<string>, reKeys: seq<string>): (r: seq<Option<nat>>)
    requires |cols| == |reKeys|
    ensures |r| == |cols|
    ensures forall i :: 0 <= i < |cols| ==> r[i] == if cols[i].Some? then cols[i] else Find(keys2, reKeys[i])
  {
    seq(|cols|, i requires 0 <= i < |cols| => if cols[i].Some? then cols[i] else Find(keys2, reKeys[i]))
  }

  lemma HeaderKeysAppend(header: Row, names: seq<string>)
    ensures HeaderKeys(header + TextCells(names)) == HeaderKeys(header) + HeaderKeys(TextCells(names))
  {
  }

  /** After the missing columns are appended, every column resolves; the
      ones that resolved before keep their index and the new ones point
      into the appended part of the header, at a column named for them. */
  lemma RefillResolvesAll(header: Row, cols: seq<Option<nat>>, names: seq<string>, reKeys: seq<string>)
    requires |cols| == |names| == |reKeys|
    requires forall i :: 0 <= i < |cols| && cols[i].Some? ==> cols[i].value < |header|
    requires forall i :: 0 <= i < |cols| ==> NormKey(Trim(names[i])) == reKeys[i]
    ensures var keys2 := HeaderKeys(header + TextCells(Missing(cols, names)));
            var r := Refill(cols, keys2, reKeys);
            forall i :: 0 <= i < |cols| ==>
              r[i].Some? && r[i].value < |header| + |Missing(cols, names)|
              && (cols[i].Some? ==> r[i] == cols[i])
              && (cols[i].None? ==> r[i].value >= |header| && keys2[r[i].value] == reKeys[i])
  {
    var miss := Missing(cols, names);
    var extra := TextCells(miss);
    var keys2 := HeaderKeys(header + extra);
    HeaderKeysAppend(header, miss);
    forall i | 0 <= i < |cols| && cols[i].None?
      ensures Find(keys2, reKeys[i]).Some? && Find(keys2, reKeys[i]).value >= |header|
    {
      var j :| 0 <= j < |miss| && miss[j] == names[i];
      assert HeaderKeys(extra)[j] == NormKey(CellText(Text(names[i])));
      CellTextOfText(names[i]);
      assert keys2[|header| + j] == reKeys[i];
      assert reKeys[i] in keys2;
    }
  }

  /** C[k] = C[k] ?? (idx2.get(a0) ?? idx2.get(a1) ?? ...) after the new
      header cells have been written. */
  function Refound(cols: seq<Option<nat>>, keys2: seq<string>, reAliases: seq<seq<string>>): (r: seq<Option<nat>>)
    requires |cols| == |reAliases|
    ensures |r| == |cols|
  {
    seq(|cols|, i requires 0 <= i < |cols| => if cols[i].Some? then cols[i] else Resolve(keys2, reAliases[i]))
  }

  /** With the second aliases among the first ones and the appended name
      of each field keyed by its first second alias, every field resolves
      after the missing columns are appended: a field resolved before keeps
      its column, and a new one lands in the appended part, on a column one
      of its aliases names. */
  lemma RefoundResolvesAll(header: Row, cols: seq<Option<nat>>, names: seq<string>, aliases: seq<seq<string>>,
                           reAliases: seq<seq<string>>)
    requires |cols| == |names| == |aliases| == |reAliases|
    requires forall i :: 0 <= i < |cols| ==> cols[i] == Resolve(HeaderKeys(header), aliases[i])
    requires forall i :: 0 <= i < |cols| ==> reAliases[i] != [] && NormKey(CellText(Text(names[i]))) == reAliases[i][0]
    requires forall i, x :: 0 <= i < |cols| && x in reAliases[i] ==> x in aliases[i]
    ensures var keys2 := HeaderKeys(header + TextCells(Missing(cols, names)));
            var r := Refound(cols, keys2, reAliases);
            forall i :: 0 <= i < |cols| ==>
              r[i].Some? && r[i].value < |keys2| && keys2[r[i].value] in aliases[i]
              && (cols[i].Some? ==> r[i] == cols[i])
              && (cols[i].None? ==> r[i].value >= |header|)
  {
    var miss := Missing(cols, names);
    var keys := HeaderKeys(header);
    var ek := HeaderKeys(TextCells(miss));
    HeaderKeysAppend(header, miss);
    forall i | 0 <= i < |cols|
      ensures var r := if cols[i].Some? then cols[i] else Resolve(keys + ek, reAliases[i]);
              r.Some? && r.value < |keys + ek| && (keys + ek)[r.value] in aliases[i]
              && (cols[i].None? ==> r.value >= |keys|)
    {
      if cols[i].None? {
        var j :| 0 <= j < |miss| && miss[j] == names[i];
        assert ek[j] == reAliases[i][0];
      }
      RefoundField(keys, ek, aliases[i], reAliases[i], cols[i]);
    }
  }

  /** One field of RefoundResolvesAll. */
  lemma RefoundField(keys: seq<string>, ek: seq<string>, al: seq<string>, re: seq<string>, col: Option<nat>)
    requires col == Resolve(keys, al) && re != [] && forall x :: x in re ==> x in al
    requires col.None? ==> re[0] in ek
    ensures var r := if col.Some? then col else Resolve(keys + ek, re);
            r.Some? && r.value < |keys + ek| && (keys + ek)[r.value] in al && (col.None? ==> r.value >= |keys|)
  {
    if col.None? {
      assert re[0] in keys + ek;
    }
  }

  /** Every header cell reads as blank: String(v || '').trim() === ''. */
  predicate BlankHeader(h: Row) {
    forall i :: 0 <= i < |h| ==> CellText(h[i]) == ""
  }

  // --------------------------------------------------- seeding a sheet

  /** getLastRow() < 1 || getLastColumn() < 1: no cell holds anything. */
  predicate Vacant(h: Row, data: seq<Row>) {
    (forall j :: 0 <= j < |h| ==> h[j] == Empty)
    && forall i, j :: 0 <= i < |data| && 0 <= j < |data[i]| ==> data[i][j] == Empty
  }

  /** The header after sh.clear() and the seed names written from column 1. */
  function Seeded(seed: Row, h: Row): (r: Row)
    ensures |r| == if |h| <= |seed| then |seed| else |h|
  {
    if |h| <= |seed| then seed else seed + h[|seed|..]
  }

  /** The header and data rows after an ensure step that seeds an empty
      sheet and leaves any other sheet as it is. */
  function EnsuredSeedHeader(seed: Row, h: Row, data: seq<Row>): Row {
    if Vacant(h, data) then Seeded(seed, h) else h
  }

  function EnsuredSeedData(h: Row, data: seq<Row>): seq<Row> {
    if Vacant(h, data) then [] else data
  }

  /** `if (sh.getLastRow() < 1 || sh.getLastColumn() < 1) { sh.clear();
      sh.getRange(1, 1, 1, n).setValues([seed]); }` */
  method EnsureSeeded(sh: Sheet, seed: Row)
    requires sh.Valid()
    modifies sh
    ensures sh.Valid()
    ensures sh.header == EnsuredSeedHeader(seed, old(sh.header), old(sh.data))
    ensures sh.data == EnsuredSeedData(old(sh.header), old(sh.data))
  {
    if Vacant(sh.header, sh.data) {
      sh.ClearData();
      sh.SetHeader(seed);
    }
  }

  /** Ensuring an ensured sheet changes nothing: a seeded header is not
      empty any more. */
  lemma EnsureSeededIdempotent(seed: Row, h: Row, data: seq<Row>)
    requires |seed| > 0 && seed[0] != Empty
    ensures var h1 := EnsuredSeedHeader(seed, h, data);
            var d1 := EnsuredSeedData(h, data);
            EnsuredSeedHeader(seed, h1, d1) == h1 && EnsuredSeedData(h1, d1) == d1
  {
    if Vacant(h, data) {
      assert Seeded(seed, h)[0] == seed[0];
    }
  }
}
