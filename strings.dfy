// ASCII stand-ins for the JavaScript string operations the scripts rely on:
// toLowerCase/toUpperCase, trim, split on whitespace or on separator
// characters, join, startsWith/includes, and decimal number text.
module Strings {
  import opened Wrappers

  // ---------------------------------------------------------------- chars

  /** The characters JavaScript's \s and String.prototype.trim treat as
      white space (ASCII subset). */
  predicate IsSpace(c: char) {
    c == ' ' || c == '\t' || c == '\n' || c == '\r' || c == 11 as char || c == 12 as char
  }

  predicate IsUpperAscii(c: char) { 'A' <= c <= 'Z' }
  predicate IsLowerAscii(c: char) { 'a' <= c <= 'z' }
  predicate IsDigit(c: char) { '0' <= c <= '9' }
  predicate IsLetter(c: char) { IsUpperAscii(c) || IsLowerAscii(c) }
  /** JavaScript's \w: [A-Za-z0-9_]. */
  predicate IsWordChar(c: char) { IsLetter(c) || IsDigit(c) || c == '_' }

  function Lower(c: char): char {
    if IsUpperAscii(c) then (c as int + 32) as char else c
  }

  function Upper(c: char): char {
    if IsLowerAscii(c) then (c as int - 32) as char else c
  }

  // ---------------------------------------------------------------- case

  function ToLower(s: string): (r: string)
    ensures |r| == |s|
    ensures forall i :: 0 <= i < |s| ==> r[i] == Lower(s[i])
  {
    seq(|s|, i requires 0 <= i < |s| => Lower(s[i]))
  }

  function ToUpper(s: string): (r: string)
    ensures |r| == |s|
    ensures forall i :: 0 <= i < |s| ==> r[i] == Upper(s[i])
  {
    seq(|s|, i requires 0 <= i < |s| => Upper(s[i]))
  }

  lemma ToLowerIdempotent(s: string)
    ensures ToLower(ToLower(s)) == ToLower(s)
  {
  }

  lemma ToUpperIdempotent(s: string)
    ensures ToUpper(ToUpper(s)) == ToUpper(s)
  {
  }

  lemma ToLowerConcat(a: string, b: string)
    ensures ToLower(a + b) == ToLower(a) + ToLower(b)
  {
  }

  lemma ToUpperConcat(a: string, b: string)
    ensures ToUpper(a + b) == ToUpper(a) + ToUpper(b)
  {
  }

  // ---------------------------------------------------------------- trim

  predicate AllSpace(s: string) {
    forall i :: 0 <= i < |s| ==> IsSpace(s[i])
  }

  /** No white space at either end (what trim leaves behind). */
  predicate NoEdgeSpace(s: string) {
    s == [] || (!IsSpace(s[0]) && !IsSpace(s[|s| - 1]))
  }

  function TrimStart(s: string): string {
    if |s| > 0 && IsSpace(s[0]) then TrimStart(s[1..]) else s
  }

  function TrimEnd(s: string): string {
    if |s| > 0 && IsSpace(s[|s| - 1]) then TrimEnd(s[..|s| - 1]) else s
  }

  /** TrimStart cuts a white-space prefix and stops at a non-space. */
  lemma {:induction false} TrimStartShape(s: string)
    ensures |TrimStart(s)| <= |s| && TrimStart(s) == s[|s| - |TrimStart(s)|..]
    ensures TrimStart(s) == [] || !IsSpace(TrimStart(s)[0])
    ensures AllSpace(s[..|s| - |TrimStart(s)|])
    decreases |s|
  {
    if |s| > 0 && IsSpace(s[0]) {
      var t := s[1..];
      TrimStartShape(t);
      var r := TrimStart(t);
      assert TrimStart(s) == r;
      var m := |t| - |r|;
      assert t[m..] == s[m + 1..];
      assert s[..m + 1] == [s[0]] + t[..m];
    }
  }

  /** TrimEnd cuts a white-space suffix and stops at a non-space. */
  lemma {:induction false} TrimEndShape(s: string)
    ensures |TrimEnd(s)| <= |s| && TrimEnd(s) == s[..|TrimEnd(s)|]
    ensures TrimEnd(s) == [] || !IsSpace(TrimEnd(s)[|TrimEnd(s)| - 1])
    ensures AllSpace(s[|TrimEnd(s)|..])
    decreases |s|
  {
    if |s| > 0 && IsSpace(s[|s| - 1]) {
      TrimEndShape(s[..|s| - 1]);
      var r := TrimEnd(s[..|s| - 1]);
      assert s[..|s| - 1][..|r|] == s[..|r|];
      assert s[|r|..] == s[..|s| - 1][|r|..] + [s[|s| - 1]];
    }
  }

  /** String.prototype.trim. */
  function Trim(s: string): (r: string)
    ensures NoEdgeSpace(r)
    ensures |r| <= |s|
  {
    TrimStartShape(s);
    TrimEndShape(TrimStart(s));
    TrimEnd(TrimStart(s))
  }

  predicate IsBlank(s: string) { Trim(s) == [] }

  lemma {:induction false} TrimStartSkips(p: string, t: string)
    requires AllSpace(p)
    requires t == [] || !IsSpace(t[0])
    ensures TrimStart(p + t) == t
    decreases |p|
  {
    if p != [] {
      assert (p + t)[1..] == p[1..] + t;
      TrimStartSkips(p[1..], t);
    } else {
      assert p + t == t;
    }
  }

  lemma {:induction false} TrimEndSkips(t: string, q: string)
    requires AllSpace(q)
    requires t == [] || !IsSpace(t[|t| - 1])
    ensures TrimEnd(t + q) == t
    decreases |q|
  {
    if q != [] {
      assert (t + q)[..|t + q| - 1] == t + q[..|q| - 1];
      TrimEndSkips(t, q[..|q| - 1]);
    } else {
      assert t + q == t;
    }
  }

  /** Trim removes exactly the white space around a core that has none at
      its ends: the characterisation every other trim fact follows from. */
  lemma TrimExact(p: string, r: string, q: string)
    requires AllSpace(p) && AllSpace(q) && NoEdgeSpace(r)
    ensures Trim(p + r + q) == r
  {
    if r == [] {
      assert p + r + q == (p + q) + [];
      TrimStartSkips(p + q, []);
    } else {
      assert p + r + q == p + (r + q);
      TrimStartSkips(p, r + q);
      TrimEndSkips(r, q);
    }
  }

  lemma TrimOfTrimmed(s: string)
    requires NoEdgeSpace(s)
    ensures Trim(s) == s
  {
    TrimExact([], s, []);
    assert [] + s + [] == s;
  }

  lemma TrimIdempotent(s: string)
    ensures Trim(Trim(s)) == Trim(s)
  {
    TrimOfTrimmed(Trim(s));
  }

  /** The trimmed string is the input with white space cut from both ends. */
  lemma TrimSplits(s: string) returns (p: string, q: string)
    ensures s == p + Trim(s) + q
    ensures AllSpace(p) && AllSpace(q)
  {
    var a := TrimStart(s);
    var r := TrimEnd(a);
    TrimStartShape(s);
    TrimEndShape(a);
    p := s[..|s| - |a|];
    q := a[|r|..];
    assert a == r + q;
    assert s == p + a;
  }

  /** Extra white space around a string does not change its trim. */
  lemma TrimSpaceAround(p: string, x: string, q: string)
    requires AllSpace(p) && AllSpace(q)
    ensures Trim(p + x + q) == Trim(x)
  {
    var p', q' := TrimSplits(x);
    var r := Trim(x);
    AllSpaceConcat(p, p');
    AllSpaceConcat(q', q);
    ConcatAssoc5(p, p', r, q', q);
    TrimExact(p + p', r, q' + q);
  }

  lemma AllSpaceConcat(a: string, b: string)
    requires AllSpace(a) && AllSpace(b)
    ensures AllSpace(a + b)
  {
  }

  lemma ConcatAssoc5(a: string, b: string, c: string, d: string, e: string)
    ensures a + (b + c + d) + e == (a + b) + c + (d + e)
  {
  }

  lemma BlankIffAllSpace(s: string)
    ensures IsBlank(s) <==> AllSpace(s)
  {
    var p, q := TrimSplits(s);
    if AllSpace(s) {
      TrimExact(s, [], []);
      assert s + [] + [] == s;
    }
  }

  lemma LowerKeepsSpace(c: char)
    ensures IsSpace(Lower(c)) <==> IsSpace(c)
    ensures IsSpace(Upper(c)) <==> IsSpace(c)
  {
  }

  lemma LowerAllSpace(p: string)
    requires AllSpace(p)
    ensures AllSpace(ToLower(p)) && AllSpace(ToUpper(p))
  {
  }

  lemma LowerNoEdgeSpace(r: string)
    requires NoEdgeSpace(r)
    ensures NoEdgeSpace(ToLower(r)) && NoEdgeSpace(ToUpper(r))
  {
    if r != [] {
      LowerKeepsSpace(r[0]);
      LowerKeepsSpace(r[|r| - 1]);
    }
  }

  /** Case mapping and trimming commute. */
  lemma TrimToLower(s: string)
    ensures Trim(ToLower(s)) == ToLower(Trim(s))
  {
    var p, q := TrimSplits(s);
    var r := Trim(s);
    ToLowerConcat(p + r, q);
    ToLowerConcat(p, r);
    assert ToLower(s) == ToLower(p) + ToLower(r) + ToLower(q);
    LowerAllSpace(p);
    LowerAllSpace(q);
    LowerNoEdgeSpace(r);
    TrimExact(ToLower(p), ToLower(r), ToLower(q));
  }

  lemma TrimToUpper(s: string)
    ensures Trim(ToUpper(s)) == ToUpper(Trim(s))
  {
    var p, q := TrimSplits(s);
    var r := Trim(s);
    ToUpperConcat(p + r, q);
    ToUpperConcat(p, r);
    assert ToUpper(s) == ToUpper(p) + ToUpper(r) + ToUpper(q);
    LowerAllSpace(p);
    LowerAllSpace(q);
    LowerNoEdgeSpace(r);
    TrimExact(ToUpper(p), ToUpper(r), ToUpper(q));
  }

  // ------------------------------------------------------ distinct values

  /** new Set(xs.filter(Boolean)) in insertion order: the non-blank values
      of xs, each at its first occurrence. */
  function Uniq(xs: seq<string>): (r: seq<string>)
    ensures |r| <= |xs|
    decreases |xs|
  {
    if xs == [] then []
    else
      var p := Uniq(xs[..|xs| - 1]);
      var x := xs[|xs| - 1];
      if x == "" || x in p then p else p + [x]
  }

  predicate Distinct(xs: seq<string>) {
    forall i, j :: 0 <= i < j < |xs| ==> xs[i] != xs[j]
  }

  lemma UniqSnoc(xs: seq<string>, x: string)
    ensures Uniq(xs + [x]) == if x == "" || x in Uniq(xs) then Uniq(xs) else Uniq(xs) + [x]
  {
    assert (xs + [x])[..|xs|] == xs;
  }

  /** The kept values are exactly the non-blank values of xs. */
  lemma {:induction false} UniqHas(xs: seq<string>, x: string)
    ensures x in Uniq(xs) <==> x != "" && x in xs
    decreases |xs|
  {
    if xs != [] {
      var n := |xs| - 1;
      UniqHas(xs[..n], x);
      assert xs == xs[..n] + [xs[n]];
    }
  }

  /** No value is kept twice and no blank is kept. */
  lemma {:induction false} UniqDistinct(xs: seq<string>)
    ensures Distinct(Uniq(xs)) && "" !in Uniq(xs)
    decreases |xs|
  {
    if xs != [] {
      UniqDistinct(xs[..|xs| - 1]);
    }
  }

  /** Distinct non-blank values are kept as they are. */
  lemma {:induction false} UniqOfDistinct(xs: seq<string>)
    requires Distinct(xs) && "" !in xs
    ensures Uniq(xs) == xs
    decreases |xs|
  {
    if xs != [] {
      var n := |xs| - 1;
      assert xs == xs[..n] + [xs[n]];
      assert Distinct(xs[..n]);
      UniqOfDistinct(xs[..n]);
      assert xs[n] !in xs[..n];
    }
  }

  /** More values only extend the result, and what they add is exactly
      their non-blank values that a does not hold. */
  lemma {:induction false} UniqAppend(a: seq<string>, b: seq<string>)
    ensures |Uniq(a)| <= |Uniq(a + b)| && Uniq(a + b)[..|Uniq(a)|] == Uniq(a)
    ensures forall x :: x in Uniq(a + b)[|Uniq(a)|..] <==> x != "" && x in b && x !in a
    decreases |b|
  {
    if b == [] {
      assert a + b == a;
    } else {
      var n := |b| - 1;
      UniqAppend(a, b[..n]);
      UniqAppendStep(a, b[..n], b[n]);
      assert a + b == (a + b[..n]) + [b[n]];
      assert b == b[..n] + [b[n]];
    }
  }

  /** One more value at the end of b keeps what UniqAppend states. */
  lemma UniqAppendStep(a: seq<string>, c: seq<string>, y: string)
    requires |Uniq(a)| <= |Uniq(a + c)| && Uniq(a + c)[..|Uniq(a)|] == Uniq(a)
    requires forall x :: x in Uniq(a + c)[|Uniq(a)|..] <==> x != "" && x in c && x !in a
    ensures |Uniq(a)| <= |Uniq((a + c) + [y])| && Uniq((a + c) + [y])[..|Uniq(a)|] == Uniq(a)
    ensures forall x :: x in Uniq((a + c) + [y])[|Uniq(a)|..] <==> x != "" && x in c + [y] && x !in a
  {
    var p := Uniq(a);
    var u := Uniq(a + c);
    UniqSnoc(a + c, y);
    UniqHas(a + c, y);
    UniqHas(a, y);
    if y == "" || y in u {
      assert Uniq((a + c) + [y]) == u;
      forall x ensures x in u[|p|..] <==> x != "" && x in c + [y] && x !in a {
        UniqHas(a, x);
      }
    } else {
      var v := u + [y];
      assert Uniq((a + c) + [y]) == v;
      assert v[..|p|] == u[..|p|];
      assert v[|p|..] == u[|p|..] + [y];
      forall x ensures x in v[|p|..] <==> x != "" && x in c + [y] && x !in a {
        UniqHas(a, x);
      }
    }
  }

  /** Appending to a list of distinct non-blank values: the list stays in
      front and what follows is exactly the new non-blank values. */
  lemma UniqUnion(a: seq<string>, b: seq<string>)
    requires Distinct(a) && "" !in a
    ensures |a| <= |Uniq(a + b)| && Uniq(a + b)[..|a|] == a
    ensures forall x :: x in Uniq(a + b) <==> x != "" && (x in a || x in b)
    ensures forall x :: x in Uniq(a + b)[|a|..] <==> x != "" && x in b && x !in a
  {
    UniqOfDistinct(a);
    UniqAppend(a, b);
    forall x ensures x in Uniq(a + b) <==> x != "" && (x in a || x in b) {
      UniqHas(a + b, x);
    }
  }

  /** Distinct values are as many as the values of their set. */
  lemma {:induction false} DistinctCard(xs: seq<string>)
    requires Distinct(xs)
    ensures |set x | x in xs| == |xs|
    decreases |xs|
  {
    if xs != [] {
      var n := |xs| - 1;
      assert Distinct(xs[..n]);
      DistinctCard(xs[..n]);
      assert (set x | x in xs) == (set x | x in xs[..n]) + {xs[n]};
      assert xs[n] !in xs[..n];
    }
  }

  lemma {:induction false} SetCardLe(xs: seq<string>)
    ensures |set x | x in xs| <= |xs|
    decreases |xs|
  {
    if xs != [] {
      var n := |xs| - 1;
      SetCardLe(xs[..n]);
      assert (set x | x in xs) == (set x | x in xs[..n]) + {xs[n]};
    }
  }

  /** Values as many as the values of their set are distinct. */
  lemma CardDistinct(xs: seq<string>)
    requires |set x | x in xs| == |xs|
    ensures Distinct(xs)
  {
    if !Distinct(xs) {
      var i, j :| 0 <= i < j < |xs| && xs[i] == xs[j];
      var ys := xs[..j] + xs[j + 1..];
      assert (set x | x in ys) == (set x | x in xs) by {
        assert xs == xs[..j] + [xs[j]] + xs[j + 1..];
        assert xs[j] in xs[..j];
      }
      SetCardLe(ys);
    }
  }

  lemma DistinctSnoc(xs: seq<string>, x: string)
    requires Distinct(xs) && x !in xs
    ensures Distinct(xs + [x])
  {
  }

  /** A rearrangement of distinct values is distinct. */
  lemma PermutationDistinct(xs: seq<string>, ys: seq<string>)
    requires Distinct(xs) && multiset(xs) == multiset(ys)
    ensures Distinct(ys)
  {
    DistinctCard(xs);
    assert |ys| == |multiset(ys)| == |multiset(xs)| == |xs|;
    assert (set x | x in ys) == (set x | x in xs) by {
      forall x ensures x in ys <==> x in xs {
        assert x in ys <==> x in multiset(ys);
        assert x in xs <==> x in multiset(xs);
      }
    }
    CardDistinct(ys);
  }

  /** The `seen` Set loop that builds Uniq(xs). */
  method UniqueValues(xs: seq<string>) returns (r: seq<string>)
    ensures r == Uniq(xs)
  {
    var seen: set<string> := {};
    r := [];
    var i := 0;
    while i < |xs|
      invariant 0 <= i <= |xs|
      invariant r == Uniq(xs[..i])
      invariant forall x :: x in seen <==> x in r
    {
      var x := xs[i];
      UniqSnoc(xs[..i], x);
      assert xs[..i + 1] == xs[..i] + [x];
      if x != "" && x !in seen {
        seen := seen + {x};
        r := r + [x];
      }
      i := i + 1;
    }
    assert xs[..i] == xs;
  }

  // ------------------------------------------------------ search helpers

  predicate StartsWith(s: string, prefix: string) {
    |prefix| <= |s| && s[..|prefix|] == prefix
  }

  /** t occurs in s at position i. */
  predicate OccursAt(s: string, t: string, i: int) {
    0 <= i <= |s| - |t| && s[i..i + |t|] == t
  }

  /** String.prototype.includes. */
  predicate Contains(s: string, t: string) {
    exists i :: 0 <= i <= |s| - |t| && OccursAt(s, t, i)
  }

  lemma StartsWithContains(s: string, t: string)
    requires StartsWith(s, t)
    ensures Contains(s, t)
  {
    assert OccursAt(s, t, 0);
  }

  // ------------------------------------------------------- words (\s+)

  /** Length of the leading run of non-space characters. */
  function WordLen(t: string): (k: nat)
    ensures k <= |t|
    ensures forall i :: 0 <= i < k ==> !IsSpace(t[i])
    ensures k == |t| || IsSpace(t[k])
  {
    if t == [] || IsSpace(t[0]) then 0 else 1 + WordLen(t[1..])
  }

  predicate IsWord(w: string) {
    w != [] && forall i :: 0 <= i < |w| ==> !IsSpace(w[i])
  }

  /** The maximal runs of non-space characters, in order: what
      s.trim().split(/\s+/) yields for a non-blank s (and, after
      .filter(Boolean), for any s). */
  function Words(s: string): (ws: seq<string>)
    ensures forall i :: 0 <= i < |ws| ==> IsWord(ws[i])
    decreases |s|
  {
    var t := TrimStart(s);
    TrimStartShape(s);
    if t == [] then []
    else
      var k := WordLen(t);
      var w := t[..k];
      assert IsWord(w);
      var rest := Words(t[k..]);
      [w] + rest
  }

  /** Array.prototype.join. */
  function Join(parts: seq<string>, sep: string): string {
    if parts == [] then ""
    else if |parts| == 1 then parts[0]
    else parts[0] + sep + Join(parts[1..], sep)
  }

  lemma {:induction false} WordsOfWordThenRest(w: string, rest: string)
    requires IsWord(w)
    requires rest == [] || IsSpace(rest[0])
    ensures Words(w + rest) == [w] + Words(rest)
  {
    var t := TrimStart(w + rest);
    TrimStartSkips([], w + rest);
    assert [] + (w + rest) == w + rest;
    assert t == w + rest;
    WordLenOf(w, rest);
    assert t[..|w|] == w;
    assert t[|w|..] == rest;
  }

  lemma {:induction false} WordLenOf(w: string, rest: string)
    requires forall i :: 0 <= i < |w| ==> !IsSpace(w[i])
    requires rest == [] || IsSpace(rest[0])
    ensures WordLen(w + rest) == |w|
    decreases |w|
  {
    if w == [] {
      assert w + rest == rest;
    } else {
      assert (w + rest)[1..] == w[1..] + rest;
      WordLenOf(w[1..], rest);
    }
  }

  lemma {:induction false} WordsOfSpaceThenRest(rest: string)
    ensures Words(" " + rest) == Words(rest)
  {
    assert (" " + rest)[1..] == rest;
    assert TrimStart(" " + rest) == TrimStart(rest);
  }

  lemma JoinUnfold(ws: seq<string>, sep: string)
    requires |ws| >= 2
    ensures Join(ws, sep) == ws[0] + (sep + Join(ws[1..], sep))
  {
  }

  lemma WordsOfEmpty()
    ensures Words([]) == []
  {
    assert TrimStart([]) == [];
  }

  lemma WordsOfJoinStep(ws: seq<string>)
    requires |ws| >= 2 && IsWord(ws[0])
    requires Words(Join(ws[1..], " ")) == ws[1..]
    ensures Words(Join(ws, " ")) == ws
  {
    var rest := Join(ws[1..], " ");
    JoinUnfold(ws, " ");
    WordsOfWordThenRest(ws[0], " " + rest);
    WordsOfSpaceThenRest(rest);
    assert ws == [ws[0]] + ws[1..];
  }

  /** Splitting the space-joined list of words gives the words back. */
  lemma {:induction false} WordsOfJoin(ws: seq<string>)
    requires forall i :: 0 <= i < |ws| ==> IsWord(ws[i])
    ensures Words(Join(ws, " ")) == ws
    decreases |ws|
  {
    if ws == [] {
      WordsOfEmpty();
    } else if |ws| == 1 {
      WordsOfWordThenRest(ws[0], []);
      assert ws[0] + [] == ws[0];
      WordsOfEmpty();
    } else {
      WordsOfJoin(ws[1..]);
      WordsOfJoinStep(ws);
    }
  }

  lemma WordHasOneWord(w: string)
    requires IsWord(w)
    ensures Words(w) == [w]
  {
    WordsOfJoin([w]);
  }

  // ------------------------------------------------- separator splitting

  /** Index of the first character of s in seps, or |s|. */
  function FirstSep(s: string, seps: set<char>): (k: nat)
    ensures k <= |s|
    ensures forall i :: 0 <= i < k ==> s[i] !in seps
    ensures k == |s| || s[k] in seps
  {
    if s == [] || s[0] in seps then 0 else 1 + FirstSep(s[1..], seps)
  }

  /** String.prototype.split on every character of seps: the pieces
      between separators, possibly empty; one more piece than
      separators. */
  function Pieces(s: string, seps: set<char>): (ps: seq<string>)
    ensures |ps| >= 1
    decreases |s|
  {
    var k := FirstSep(s, seps);
    if k == |s| then [s] else [s[..k]] + Pieces(s[k + 1..], seps)
  }

  predicate Avoids(s: string, seps: set<char>) {
    forall j :: 0 <= j < |s| ==> s[j] !in seps
  }

  /** No piece contains a separator. */
  lemma {:induction false} PiecesAvoid(s: string, seps: set<char>)
    ensures forall i :: 0 <= i < |Pieces(s, seps)| ==> Avoids(Pieces(s, seps)[i], seps)
    decreases |s|
  {
    var k := FirstSep(s, seps);
    if k < |s| {
      PiecesAvoid(s[k + 1..], seps);
    }
  }

  lemma {:induction false} FirstSepOf(a: string, rest: string, seps: set<char>)
    requires Avoids(a, seps)
    requires rest == [] || rest[0] in seps
    ensures FirstSep(a + rest, seps) == |a|
    decreases |a|
  {
    if a == [] {
      assert a + rest == rest;
    } else {
      assert (a + rest)[1..] == a[1..] + rest;
      FirstSepOf(a[1..], rest, seps);
    }
  }

  function TrimAll(xs: seq<string>): (r: seq<string>)
    ensures |r| == |xs|
    ensures forall i :: 0 <= i < |xs| ==> r[i] == Trim(xs[i])
  {
    seq(|xs|, i requires 0 <= i < |xs| => Trim(xs[i]))
  }

  /** .filter(Boolean) on strings. */
  function NonEmpty(xs: seq<string>): (r: seq<string>)
    ensures forall i :: 0 <= i < |r| ==> r[i] != [] && r[i] in xs
    ensures forall x :: x in xs && x != [] ==> x in r
  {
    if xs == [] then []
    else if xs[0] == [] then NonEmpty(xs[1..])
    else [xs[0]] + NonEmpty(xs[1..])
  }

  lemma NonEmptyId(xs: seq<string>)
    requires forall i :: 0 <= i < |xs| ==> xs[i] != []
    ensures NonEmpty(xs) == xs
  {
  }

  /** A string without separators is a single piece. */
  lemma PiecesOfPlain(c: string, seps: set<char>)
    requires Avoids(c, seps)
    ensures Pieces(c, seps) == [c]
  {
    FirstSepOf(c, [], seps);
    assert c + [] == c;
  }

  lemma PiecesAfterFirst(x: string, rest: string, seps: set<char>, c: char)
    requires Avoids(x, seps) && c in seps
    ensures Pieces(x + ([c] + rest), seps) == [x] + Pieces(rest, seps)
  {
    var s := x + ([c] + rest);
    FirstSepOf(x, [c] + rest, seps);
    assert s[..|x|] == x;
    assert s[|x| + 1..] == rest;
  }

  /** The last piece is whatever follows the last separator. */
  lemma {:induction false} PiecesLast(a: string, c: char, b: string, seps: set<char>)
    requires c in seps && Avoids(b, seps)
    ensures Pieces(a + [c] + b, seps)[|Pieces(a + [c] + b, seps)| - 1] == b
    decreases |a|
  {
    var s := a + [c] + b;
    var k := FirstSep(s, seps);
    assert s[|a|] == c;
    if k == |a| {
      assert s[k + 1..] == b;
      FirstSepOf(b, [], seps);
      assert b + [] == b;
    } else {
      assert k < |a|;
      assert s[k + 1..] == a[k + 1..] + [c] + b;
      PiecesLast(a[k + 1..], c, b, seps);
    }
  }

  lemma JoinLast(xs: seq<string>, x: string, sep: string)
    requires xs != []
    ensures Join(xs + [x], sep) == Join(xs, sep) + sep + x
    decreases |xs|
  {
    if |xs| == 1 {
      assert (xs + [x])[1..] == [x];
    } else {
      assert (xs + [x])[1..] == xs[1..] + [x];
      JoinLast(xs[1..], x, sep);
    }
  }

  lemma {:induction false} JoinNoEdgeSpace(xs: seq<string>, sep: string)
    requires forall i :: 0 <= i < |xs| ==> xs[i] != [] && NoEdgeSpace(xs[i])
    ensures NoEdgeSpace(Join(xs, sep))
    ensures xs != [] ==> Join(xs, sep) != []
    decreases |xs|
  {
    if |xs| >= 2 {
      JoinNoEdgeSpace(xs[1..], sep);
      var r := Join(xs[1..], sep);
      assert Join(xs, sep) == xs[0] + (sep + r);
      assert Join(xs, sep)[0] == xs[0][0];
    }
  }

  // ------------------------------------------------ comma-separated lists

  /** An entry of a comma-separated list: non-blank, trimmed, no comma. */
  predicate IsItem(x: string) {
    x != [] && NoEdgeSpace(x) && Avoids(x, {','})
  }

  /** Splitting trimmed text at commas with the white space around them,
      blank entries dropped: the pieces between commas, trimmed, without
      the blank ones. */
  function ListItems(s: string): (r: seq<string>)
    ensures forall i :: 0 <= i < |r| ==> r[i] != []
  {
    NonEmpty(TrimAll(Pieces(s, {','})))
  }

  function Prefixed(q: string, xs: seq<string>): (r: seq<string>)
    ensures |r| == |xs| && forall i :: 0 <= i < |xs| ==> r[i] == q + xs[i]
  {
    seq(|xs|, i requires 0 <= i < |xs| => q + xs[i])
  }

  /** Splitting a ", "-joined list at its commas gives back its entries,
      each after the first with the space of the separator. */
  lemma {:induction false} PiecesOfJoin(ps: seq<string>, pre: string)
    requires ps != [] && Avoids(pre, {','})
    requires forall i :: 0 <= i < |ps| ==> Avoids(ps[i], {','})
    ensures Pieces(pre + Join(ps, ", "), {','}) == [pre + ps[0]] + Prefixed(" ", ps[1..])
    decreases |ps|
  {
    if |ps| == 1 {
      PiecesOfPlain(pre + ps[0], {','});
    } else {
      PiecesOfJoin(ps[1..], " ");
      assert ps[1..][1..] == ps[2..];
      PiecesOfJoinCons(ps, pre);
    }
  }

  /** The step of PiecesOfJoin: the first entry, then the pieces of the
      rest of the list. */
  lemma PiecesOfJoinCons(ps: seq<string>, pre: string)
    requires |ps| >= 2 && Avoids(pre, {','}) && Avoids(ps[0], {','})
    requires Pieces(" " + Join(ps[1..], ", "), {','}) == [" " + ps[1]] + Prefixed(" ", ps[2..])
    ensures Pieces(pre + Join(ps, ", "), {','}) == [pre + ps[0]] + Prefixed(" ", ps[1..])
  {
    var x := pre + ps[0];
    var rest := " " + Join(ps[1..], ", ");
    JoinCons(ps, pre);
    AvoidsConcat(pre, ps[0], {','});
    PiecesAfterFirst(x, rest, {','}, ',');
    PrefixedCons(" ", ps[1..]);
    assert ps[1..][1..] == ps[2..];
  }

  lemma JoinCons(ps: seq<string>, pre: string)
    requires |ps| >= 2
    ensures pre + Join(ps, ", ") == (pre + ps[0]) + ([','] + (" " + Join(ps[1..], ", ")))
  {
    JoinUnfold(ps, ", ");
  }

  lemma PrefixedCons(q: string, xs: seq<string>)
    requires xs != []
    ensures Prefixed(q, xs) == [q + xs[0]] + Prefixed(q, xs[1..])
  {
  }

  lemma AvoidsConcat(a: string, b: string, seps: set<char>)
    requires Avoids(a, seps) && Avoids(b, seps)
    ensures Avoids(a + b, seps)
  {
  }

  lemma TrimAfterSpace(x: string)
    requires NoEdgeSpace(x)
    ensures Trim(" " + x) == x
  {
    TrimExact(" ", x, []);
    assert " " + x + [] == " " + x;
  }

  lemma PiecesOfJoinPlain(ps: seq<string>)
    requires ps != []
    requires forall i :: 0 <= i < |ps| ==> Avoids(ps[i], {','})
    ensures Pieces(Join(ps, ", "), {','}) == [ps[0]] + Prefixed(" ", ps[1..])
  {
    var e: string := [];
    PiecesOfJoin(ps, e);
    assert e + Join(ps, ", ") == Join(ps, ", ");
    assert e + ps[0] == ps[0];
  }

  lemma ListItemsOfEmpty()
    ensures ListItems("") == []
  {
    assert FirstSep("", {','}) == 0;
    assert Pieces("", {','}) == [""];
    TrimOfTrimmed("");
    assert TrimAll([""]) == [""];
  }

  lemma TrimAllSpaced(ps: seq<string>)
    requires ps != []
    requires forall i :: 0 <= i < |ps| ==> NoEdgeSpace(ps[i])
    ensures TrimAll([ps[0]] + Prefixed(" ", ps[1..])) == ps
  {
    var pieces := [ps[0]] + Prefixed(" ", ps[1..]);
    forall i | 0 <= i < |ps| ensures TrimAll(pieces)[i] == ps[i] {
      if i == 0 {
        TrimOfTrimmed(ps[0]);
      } else {
        assert pieces[i] == " " + ps[i];
        TrimAfterSpace(ps[i]);
      }
    }
  }

  /** ListItems undoes Join(_, ", ") on well-formed entries. */
  lemma ListItemsOfJoin(ps: seq<string>)
    requires forall i :: 0 <= i < |ps| ==> IsItem(ps[i])
    ensures ListItems(Join(ps, ", ")) == ps
  {
    if ps == [] {
      ListItemsOfEmpty();
    } else {
      PiecesOfJoinPlain(ps);
      TrimAllSpaced(ps);
      NonEmptyId(ps);
    }
  }

  /** Trimming keeps a string free of a separator. */
  lemma TrimAvoids(s: string, seps: set<char>)
    requires Avoids(s, seps)
    ensures Avoids(Trim(s), seps)
  {
    var p, q := TrimSplits(s);
    forall j | 0 <= j < |Trim(s)| ensures Trim(s)[j] !in seps {
      assert Trim(s)[j] == s[|p| + j];
    }
  }

  /** Every entry ListItems yields is well formed. */
  lemma ListItemsAreItems(s: string)
    ensures forall i :: 0 <= i < |ListItems(s)| ==> IsItem(ListItems(s)[i])
  {
    var pieces := Pieces(s, {','});
    PiecesAvoid(s, {','});
    forall i | 0 <= i < |pieces| ensures Avoids(TrimAll(pieces)[i], {','}) {
      TrimAvoids(pieces[i], {','});
    }
  }

  // --------------------------------------------------------- digits

  predicate AllDigits(s: string) {
    forall i :: 0 <= i < |s| ==> IsDigit(s[i])
  }

  function DigitValue(c: char): nat
    requires IsDigit(c)
  {
    c as int - '0' as int
  }

  /** Decimal value of a digit string (most significant first). */
  function DigitsValue(s: string): nat
    requires AllDigits(s)
  {
    if s == [] then 0 else DigitsValue(s[..|s| - 1]) * 10 + DigitValue(s[|s| - 1])
  }

  function DigitChar(d: nat): char
    requires d < 10
  {
    ('0' as int + d) as char
  }

  /** String(n) for a natural number. */
  function NatToString(n: nat): (s: string)
    ensures s != [] && AllDigits(s)
  {
    if n < 10 then [DigitChar(n)] else NatToString(n / 10) + [DigitChar(n % 10)]
  }

  /** String(n) for an integer. */
  function IntToString(n: int): string {
    if n < 0 then "-" + NatToString(-n) else NatToString(n)
  }

  lemma {:induction false} NatToStringValue(n: nat)
    ensures DigitsValue(NatToString(n)) == n
  {
    if n >= 10 {
      var s := NatToString(n);
      assert s[..|s| - 1] == NatToString(n / 10);
      NatToStringValue(n / 10);
    }
  }

  /** String.prototype.padStart with '0'. */
  function PadZeros(s: string, width: nat): (r: string)
    ensures |r| == if |s| < width then width else |s|
  {
    if |s| < width then seq(width - |s|, _ => '0') + s else s
  }

  lemma {:induction false} LeadingZerosValue(z: nat, s: string)
    requires AllDigits(s)
    ensures AllDigits(seq(z, _ => '0') + s)
    ensures DigitsValue(seq(z, _ => '0') + s) == DigitsValue(s)
    decreases |s|
  {
    var t := seq(z, _ => '0') + s;
    if s == [] {
      assert t == seq(z, _ => '0');
      ZerosValue(z);
    } else {
      assert t[..|t| - 1] == seq(z, _ => '0') + s[..|s| - 1];
      LeadingZerosValue(z, s[..|s| - 1]);
    }
  }

  lemma {:induction false} ZerosValue(z: nat)
    ensures AllDigits(seq(z, _ => '0'))
    ensures DigitsValue(seq(z, _ => '0')) == 0
  {
    if z > 0 {
      assert seq(z, _ => '0')[..z - 1] == seq(z - 1, _ => '0');
      ZerosValue(z - 1);
    }
  }

  lemma PaddedValue(n: nat, width: nat)
    ensures AllDigits(PadZeros(NatToString(n), width))
    ensures DigitsValue(PadZeros(NatToString(n), width)) == n
  {
    var s := NatToString(n);
    NatToStringValue(n);
    if |s| < width {
      LeadingZerosValue(width - |s|, s);
    }
  }

  lemma {:induction false} NatToStringLength(n: nat, k: nat)
    requires n < Pow10(k)
    ensures |NatToString(n)| <= if k == 0 then 1 else k
  {
    if n >= 10 {
      assert k >= 2;
      NatToStringLength(n / 10, k - 1);
    }
  }

  function Pow10(k: nat): (p: nat)
    ensures p >= 1
  {
    if k == 0 then 1 else 10 * Pow10(k - 1)
  }

  lemma DigitsValueBound(s: string)
    requires AllDigits(s)
    ensures DigitsValue(s) < Pow10(|s|)
  {
  }

  // ------------------------------------------------------ Number(text)

  /** Digits with at most one decimal point and at least one digit. */
  function DecimalText(s: string): Option<real> {
    var k := FirstSep(s, {'.'});
    if k == |s| then
      if s != [] && AllDigits(s) then Some(DigitsValue(s) as real) else None
    else
      var ip := s[..k];
      var fp := s[k + 1..];
      if AllDigits(ip) && AllDigits(fp) && (ip != [] || fp != []) then
        Some(PointValue(ip, fp))
      else None
  }

  /** The value of ip.fp in decimal. */
  function PointValue(ip: string, fp: string): real
    requires AllDigits(ip) && AllDigits(fp)
  {
    DigitsValue(ip) as real + DigitsValue(fp) as real / Pow10(|fp|) as real
  }

  /** JavaScript's Number(text) on plain decimal text: surrounding white
      space ignored, blank text is 0, an optional sign, at most one decimal
      point; anything else is NaN (None). Exponents, hexadecimal and
      "Infinity" are not modelled. */
  function NumberText(s: string): Option<real> {
    SignedDecimal(Trim(s))
  }

  function SignedDecimal(t: string): Option<real> {
    if t == [] then Some(0.0)
    else if t[0] == '-' then
      match DecimalText(t[1..])
      case Some(v) => Some(-v)
      case None => None
    else if t[0] == '+' then DecimalText(t[1..])
    else DecimalText(t)
  }

  lemma DigitsNoEdgeSpace(s: string)
    requires AllDigits(s)
    ensures NoEdgeSpace(s)
  {
  }

  /** Number(String(n)) == n. */
  lemma NumberTextOfNat(n: nat)
    ensures NumberText(NatToString(n)) == Some(n as real)
  {
    var s := NatToString(n);
    DigitsNoEdgeSpace(s);
    TrimOfTrimmed(s);
    NatToStringValue(n);
    DecimalOfDigits(s);
    UnsignedDecimal(s);
  }

  lemma UnsignedDecimal(t: string)
    requires t != [] && IsDigit(t[0])
    ensures SignedDecimal(t) == DecimalText(t)
  {
  }

  lemma DecimalOfDigits(s: string)
    requires s != [] && AllDigits(s)
    ensures DecimalText(s) == Some(DigitsValue(s) as real)
  {
    FirstSepOf(s, [], {'.'});
    assert s + [] == s;
  }

  /** Number(ip + "." + fp) for digit strings with at least one digit:
      the integer part plus the fraction. */
  lemma NumberOfDecimal(ip: string, fp: string)
    requires AllDigits(ip) && AllDigits(fp) && (ip != [] || fp != [])
    ensures NumberText(ip + "." + fp) == Some(PointValue(ip, fp))
  {
    var t := ip + "." + fp;
    assert t[0] == '.' || IsDigit(t[0]);
    assert t[|t| - 1] == '.' || IsDigit(t[|t| - 1]);
    TrimOfTrimmed(t);
    assert SignedDecimal(t) == DecimalText(t);
    DecimalOfPoint(ip, fp);
  }

  lemma DecimalOfPoint(ip: string, fp: string)
    requires AllDigits(ip) && AllDigits(fp) && (ip != [] || fp != [])
    ensures DecimalText(ip + "." + fp) == Some(PointValue(ip, fp))
  {
    var t := ip + ("." + fp);
    assert Avoids(ip, {'.'});
    FirstSepOf(ip, "." + fp, {'.'});
    assert t[..|ip|] == ip;
    assert t[|ip| + 1..] == fp;
    assert ip + "." + fp == t;
  }

  /** String(n): a minus sign for a negative number, then decimal digits
      that read back as |n|. */
  lemma IntToStringShape(n: int)
    ensures var s := IntToString(n);
      s != [] && IsDigit(s[|s| - 1]) && !IsSpace(s[0])
      && (forall i :: 0 <= i < |s| ==> IsDigit(s[i]) || (i == 0 && s[i] == '-'))
      && (n >= 0 ==> AllDigits(s) && DigitsValue(s) == n)
      && (n < 0 ==> s[0] == '-')
  {
    if n >= 0 {
      NatToStringValue(n);
    } else {
      var t := NatToString(-n);
      assert IntToString(n) == "-" + t;
    }
  }
}
