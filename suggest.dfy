// The search-as-you-type ranking shared by suggestPeople (FormServer.js)
// and signInSuggestPeople (SignInServer.js): every query token is compared
// with every normalised field of a candidate and earns points for an exact,
// a prefix or a substring match; candidates without points are dropped, the
// rest are sorted best first and cut to the requested limit.
module Suggest {
  import opened Strings
  import opened Cells
  import opened Sorting

  // ------------------------------------------------------------- scoring

  /** The points for an exact, a prefix and a substring match. */
  datatype Weights = Weights(exact: nat, prefix: nat, partial: nat)

  predicate Positive(w: Weights) {
    w.exact > 0 && w.prefix > 0 && w.partial > 0
  }

  /** The token occurs in the field, neither of them blank. */
  predicate Hit(t: string, h: string) {
    t != "" && h != "" && Contains(h, t)
  }

  /** The points one token earns against one field. */
  function PairScore(t: string, h: string, w: Weights): (s: nat)
    ensures s > 0 ==> Hit(t, h)
    ensures Positive(w) && Hit(t, h) ==> s > 0
  {
    if t == "" || h == "" then 0
    else if h == t then
      assert StartsWith(h, t);
      StartsWithContains(h, t);
      w.exact
    else if StartsWith(h, t) then
      StartsWithContains(h, t);
      w.prefix
    else if Contains(h, t) then w.partial
    else 0
  }

  /** The points one token earns against all fields. */
  function FieldsScore(t: string, hs: seq<string>, w: Weights): nat {
    if hs == [] then 0 else FieldsScore(t, hs[..|hs| - 1], w) + PairScore(t, hs[|hs| - 1], w)
  }

  /** The points of a candidate: the sum over tokens and fields. */
  function Score(ts: seq<string>, hs: seq<string>, w: Weights): nat {
    if ts == [] then 0 else Score(ts[..|ts| - 1], hs, w) + FieldsScore(ts[|ts| - 1], hs, w)
  }

  /** Some token occurs in some field. */
  predicate AnyHit(ts: seq<string>, hs: seq<string>) {
    exists i, j :: 0 <= i < |ts| && 0 <= j < |hs| && Hit(ts[i], hs[j])
  }

  lemma {:induction false} FieldsScorePositive(t: string, hs: seq<string>, w: Weights)
    ensures FieldsScore(t, hs, w) > 0 ==> exists j :: 0 <= j < |hs| && Hit(t, hs[j])
    ensures Positive(w) && (exists j :: 0 <= j < |hs| && Hit(t, hs[j])) ==> FieldsScore(t, hs, w) > 0
    decreases |hs|
  {
    if hs != [] {
      var init := hs[..|hs| - 1];
      FieldsScorePositive(t, init, w);
      if FieldsScore(t, init, w) > 0 {
        var j :| 0 <= j < |init| && Hit(t, init[j]);
        assert hs[j] == init[j];
      }
      forall j | 0 <= j < |hs| && Hit(t, hs[j]) && Positive(w)
        ensures FieldsScore(t, hs, w) > 0
      {
        if j < |init| {
          assert init[j] == hs[j];
        }
      }
    }
  }

  /** A candidate has points exactly when one of the tokens occurs in one
      of its fields (for weights that are all positive); without that it
      has none whatever the weights. */
  lemma {:induction false} ScorePositive(ts: seq<string>, hs: seq<string>, w: Weights)
    ensures Score(ts, hs, w) > 0 ==> AnyHit(ts, hs)
    ensures Positive(w) && AnyHit(ts, hs) ==> Score(ts, hs, w) > 0
    decreases |ts|
  {
    if ts != [] {
      var init := ts[..|ts| - 1];
      var t := ts[|ts| - 1];
      ScorePositive(init, hs, w);
      FieldsScorePositive(t, hs, w);
      if Score(init, hs, w) > 0 {
        var i, j :| 0 <= i < |init| && 0 <= j < |hs| && Hit(init[i], hs[j]);
        assert ts[i] == init[i];
      }
      if FieldsScore(t, hs, w) > 0 {
        var j :| 0 <= j < |hs| && Hit(t, hs[j]);
        assert Hit(ts[|ts| - 1], hs[j]);
      }
      if Positive(w) && AnyHit(ts, hs) {
        var i, j :| 0 <= i < |ts| && 0 <= j < |hs| && Hit(ts[i], hs[j]);
        if i < |init| {
          assert Hit(init[i], hs[j]);
        }
      }
    }
  }

  /** The score is additive over tokens, so it does not depend on how the
      query is cut into two parts. */
  lemma {:induction false} ScoreAppend(a: seq<string>, b: seq<string>, hs: seq<string>, w: Weights)
    ensures Score(a + b, hs, w) == Score(a, hs, w) + Score(b, hs, w)
    decreases |b|
  {
    if b == [] {
      assert a + b == a;
    } else {
      var init := b[..|b| - 1];
      ScoreAppend(a, init, hs, w);
      assert (a + b)[..|a + b| - 1] == a + init;
      assert (a + b)[|a + b| - 1] == b[|b| - 1];
    }
  }

  /** The scoring loop: for each token, for each field, add its points. */
  method ScoreOf(ts: seq<string>, hs: seq<string>, w: Weights) returns (score: nat)
    ensures score == Score(ts, hs, w)
  {
    score := 0;
    var i := 0;
    while i < |ts|
      invariant 0 <= i <= |ts|
      invariant score == Score(ts[..i], hs, w)
    {
      var j := 0;
      var before := score;
      while j < |hs|
        invariant 0 <= j <= |hs|
        invariant score == before + FieldsScore(ts[i], hs[..j], w)
      {
        assert hs[..j + 1][..j] == hs[..j];
        score := score + PairScore(ts[i], hs[j], w);
        j := j + 1;
      }
      assert hs[..j] == hs;
      assert ts[..i + 1][..i] == ts[..i];
      i := i + 1;
    }
    assert ts[..i] == ts;
  }

  // --------------------------------------------------------------- limit

  /** Math.max(1, Math.min(Number(limit) || 10, 20)): the limit is clamped
      to 1..20 and defaults to 10 when missing, zero or not a number. */
  function Limit(limit: Cell): (n: nat)
    ensures 1 <= n <= 20
    ensures NumberOr0(limit) == 0 ==> n == 10
    ensures 1 <= NumberOr0(limit) <= 20 ==> n == NumberOr0(limit)
  {
    var v := NumberOr0(limit);
    if v == 0 then 10 else if v > 20 then 20 else if v < 1 then 1 else v
  }

  // ------------------------------------------------------------- ranking

  /** A candidate with its points. */
  datatype Scored<T> = Scored(item: T, score: int)

  /** The candidates with points, in their original order. */
  function Positives<T(!new)>(xs: seq<Scored<T>>): (r: seq<Scored<T>>)
    ensures forall x :: x in r <==> x in xs && x.score > 0
  {
    if xs == [] then []
    else
      var rest := Positives(xs[..|xs| - 1]);
      assert forall x :: x in xs <==> x in xs[..|xs| - 1] || x == xs[|xs| - 1];
      if xs[|xs| - 1].score > 0 then rest + [xs[|xs| - 1]] else rest
  }

  /** Best score first; `tie` orders candidates with equal scores. */
  function ScoreThen<T>(tie: (T, T) -> bool): (Scored<T>, Scored<T>) -> bool {
    (a: Scored<T>, b: Scored<T>) => a.score > b.score || (a.score == b.score && tie(a.item, b.item))
  }

  lemma ScoreThenTotal<T(!new)>(tie: (T, T) -> bool)
    requires TotalPreorder(tie)
    ensures TotalPreorder(ScoreThen(tie))
  {
    var le := ScoreThen(tie);
    forall a: Scored<T>, b: Scored<T>, c: Scored<T> | le(a, b) && le(b, c)
      ensures le(a, c)
    {
      if a.score == b.score && b.score == c.score {
        assert tie(a.item, b.item) && tie(b.item, c.item);
      }
    }
    forall a: Scored<T>, b: Scored<T>
      ensures le(a, b) || le(b, a)
    {
      assert tie(a.item, b.item) || tie(b.item, a.item);
    }
  }

  /** filter(x => x.score > 0), sort(cmp), slice(0, n). */
  function Rank<T(!new)>(xs: seq<Scored<T>>, le: (Scored<T>, Scored<T>) -> bool, n: nat): seq<Scored<T>> {
    Take(SortBy(Positives(xs), le), n)
  }

  /** The ranking keeps at most n candidates, each with points, in
      comparator order; a candidate with points that is left out means
      the list is full and every kept candidate comes before it. */
  lemma RankMeaning<T(!new)>(xs: seq<Scored<T>>, le: (Scored<T>, Scored<T>) -> bool, n: nat)
    requires TotalPreorder(le)
    ensures |Rank(xs, le, n)| <= n
    ensures forall x :: x in Rank(xs, le, n) ==> x in xs && x.score > 0
    ensures SortedBy(Rank(xs, le, n), le)
    ensures forall x :: x in xs && x.score > 0 && x !in Rank(xs, le, n) ==>
              |Rank(xs, le, n)| == n && forall k :: 0 <= k < n ==> le(Rank(xs, le, n)[k], x)
  {
    var s := SortBy(Positives(xs), le);
    var r := Rank(xs, le, n);
    SortBySorted(Positives(xs), le);
    SortByElements(Positives(xs), le);
    forall i, j | 0 <= i < j < |r|
      ensures le(r[i], r[j])
    {
      assert r[i] == s[i] && r[j] == s[j];
    }
    forall x | x in r
      ensures x in xs && x.score > 0
    {
      var k :| 0 <= k < |r| && r[k] == x;
      assert s[k] == x;
    }
    forall x | x in xs && x.score > 0 && x !in r
      ensures |r| == n && forall k :: 0 <= k < n ==> le(r[k], x)
    {
      assert x in s;
      var p :| 0 <= p < |s| && s[p] == x;
      assert p >= |r|;
      forall k | 0 <= k < n
        ensures le(r[k], x)
      {
        assert r[k] == s[k];
      }
    }
  }
}
