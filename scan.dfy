// The row scans the scripts write as `for (let i = 0; i < vals.length; i++)`
// loops with `continue`: the positions of the rows a test keeps, in order,
// and the first or last such position.
module Scan {
  import opened Wrappers

  /** Positions of the elements that keep accepts, in increasing order. */
  function Where<T>(xs: seq<T>, keep: T -> bool): (r: seq<nat>)
    ensures forall k :: 0 <= k < |r| ==> r[k] < |xs| && keep(xs[r[k]])
    ensures forall k, l :: 0 <= k < l < |r| ==> r[k] < r[l]
    ensures forall i :: 0 <= i < |xs| && keep(xs[i]) ==> i in r
    decreases |xs|
  {
    if xs == [] then []
    else
      var n := |xs| - 1;
      var prev := Where(xs[..n], keep);
      assert forall k :: 0 <= k < |prev| ==> xs[..n][prev[k]] == xs[prev[k]];
      prev + (if keep(xs[n]) then [n] else [])
  }

  /** Where grows by one position at a time. */
  lemma WhereSnoc<T>(xs: seq<T>, i: nat, keep: T -> bool)
    requires i < |xs|
    ensures Where(xs[..i + 1], keep) == Where(xs[..i], keep) + (if keep(xs[i]) then [i] else [])
  {
    assert xs[..i + 1][..i] == xs[..i];
  }

  lemma WhereAll<T>(xs: seq<T>, keep: T -> bool)
    ensures Where(xs[..|xs|], keep) == Where(xs, keep)
  {
    assert xs[..|xs|] == xs;
  }

  /** A position is kept exactly when its element passes the test. */
  lemma WhereMember<T>(xs: seq<T>, keep: T -> bool, i: nat)
    ensures i in Where(xs, keep) <==> i < |xs| && keep(xs[i])
  {
  }

  /** The first position whose element passes the test. */
  function First<T>(xs: seq<T>, keep: T -> bool): (r: Option<nat>)
    ensures r.Some? ==> r.value < |xs| && keep(xs[r.value])
    ensures r.Some? ==> forall j :: 0 <= j < r.value ==> !keep(xs[j])
    ensures r.None? ==> forall j :: 0 <= j < |xs| ==> !keep(xs[j])
    decreases |xs|
  {
    if xs == [] then None
    else if keep(xs[0]) then Some(0)
    else
      match First(xs[1..], keep)
      case Some(j) => Some(j + 1)
      case None => None
  }

  /** A passing position with no passing position before it is the first. */
  lemma FirstAt<T>(xs: seq<T>, keep: T -> bool, i: nat)
    requires i < |xs| && keep(xs[i]) && forall j :: 0 <= j < i ==> !keep(xs[j])
    ensures First(xs, keep) == Some(i)
  {
  }

  /** Replacing the first passing element by another passing one keeps
      the first position. */
  lemma FirstAfterUpdate<T>(xs: seq<T>, keep: T -> bool, i: nat, y: T)
    requires First(xs, keep) == Some(i) && keep(y)
    ensures First(xs[i := y], keep) == Some(i)
  {
    FirstAt(xs[i := y], keep, i);
  }

  /** With no passing element, an appended passing one is the first. */
  lemma FirstAfterAppend<T>(xs: seq<T>, keep: T -> bool, y: T)
    requires First(xs, keep) == None && keep(y)
    ensures First(xs + [y], keep) == Some(|xs|)
  {
    FirstAt(xs + [y], keep, |xs|);
  }

  /** The last position whose element passes the test. */
  function Last<T>(xs: seq<T>, keep: T -> bool): (r: Option<nat>)
    ensures r.Some? ==> r.value < |xs| && keep(xs[r.value])
    ensures r.Some? ==> forall j :: r.value < j < |xs| ==> !keep(xs[j])
    ensures r.None? ==> forall j :: 0 <= j < |xs| ==> !keep(xs[j])
    decreases |xs|
  {
    if xs == [] then None
    else if keep(xs[|xs| - 1]) then Some(|xs| - 1)
    else
      var r := Last(xs[..|xs| - 1], keep);
      assert forall j :: 0 <= j < |xs| - 1 ==> xs[..|xs| - 1][j] == xs[j];
      r
  }

  /** The loop `for (i = 0; i < xs.length; i++) if (keep(xs[i])) return i;`. */
  method FindFirst<T>(xs: seq<T>, keep: T -> bool) returns (r: Option<nat>)
    ensures r == First(xs, keep)
  {
    var i := 0;
    while i < |xs|
      invariant 0 <= i <= |xs|
      invariant forall j :: 0 <= j < i ==> !keep(xs[j])
    {
      if keep(xs[i]) {
        return Some(i);
      }
      i := i + 1;
    }
    return None;
  }

  /** The loop `for (i = xs.length - 1; i >= 0; i--) if (keep(xs[i])) return i;`. */
  method FindLast<T>(xs: seq<T>, keep: T -> bool) returns (r: Option<nat>)
    ensures r == Last(xs, keep)
  {
    var i := |xs|;
    while i > 0
      invariant 0 <= i <= |xs|
      invariant forall j :: i <= j < |xs| ==> !keep(xs[j])
    {
      i := i - 1;
      if keep(xs[i]) {
        return Some(i);
      }
    }
    return None;
  }

  /** f applied to each kept element and its position, in order. */
  function PickMap<T, U>(xs: seq<T>, keep: T -> bool, f: (T, nat) -> U): (r: seq<U>)
    ensures |r| == |Where(xs, keep)|
    ensures forall k :: 0 <= k < |r| ==> r[k] == f(xs[Where(xs, keep)[k]], Where(xs, keep)[k])
  {
    var idx := Where(xs, keep);
    seq(|idx|, k requires 0 <= k < |idx| => f(xs[idx[k]], idx[k]))
  }

  /** The loop `for (i...) { if (!keep(xs[i])) continue; out.push(f(xs[i], i)); }`. */
  method Collect<T, U>(xs: seq<T>, keep: T -> bool, f: (T, nat) -> U) returns (ys: seq<U>)
    ensures ys == PickMap(xs, keep, f)
  {
    ys := [];
    var i := 0;
    while i < |xs|
      invariant 0 <= i <= |xs|
      invariant |ys| == |Where(xs[..i], keep)|
      invariant forall k :: 0 <= k < |ys| ==> ys[k] == f(xs[Where(xs[..i], keep)[k]], Where(xs[..i], keep)[k])
    {
      WhereSnoc(xs, i, keep);
      if keep(xs[i]) {
        ys := ys + [f(xs[i], i)];
      }
      i := i + 1;
    }
    WhereAll(xs, keep);
  }

  /** PickMap grows by one element at a time. */
  lemma PickMapSnoc<T, U>(xs: seq<T>, i: nat, keep: T -> bool, f: (T, nat) -> U)
    requires i < |xs|
    ensures PickMap(xs[..i + 1], keep, f) == PickMap(xs[..i], keep, f) + (if keep(xs[i]) then [f(xs[i], i)] else [])
  {
    WhereSnoc(xs, i, keep);
    var p, q := xs[..i], xs[..i + 1];
    assert forall k :: 0 <= k < |Where(p, keep)| ==> q[Where(p, keep)[k]] == p[Where(p, keep)[k]];
  }

  lemma PickMapAll<T, U>(xs: seq<T>, keep: T -> bool, f: (T, nat) -> U)
    ensures PickMap(xs[..|xs|], keep, f) == PickMap(xs, keep, f)
  {
    assert xs[..|xs|] == xs;
  }

  /** Every kept element is mapped into the result. */
  lemma PickMapHas<T, U>(xs: seq<T>, keep: T -> bool, f: (T, nat) -> U, i: nat)
    requires i < |xs| && keep(xs[i])
    ensures f(xs[i], i) in PickMap(xs, keep, f)
  {
    var idx := Where(xs, keep);
    WhereMember(xs, keep, i);
    var k :| 0 <= k < |idx| && idx[k] == i;
    assert PickMap(xs, keep, f)[k] == f(xs[i], i);
  }

  /** Every element of the result comes from a kept element, whose
      position is returned. */
  lemma PickMapFrom<T, U>(xs: seq<T>, keep: T -> bool, f: (T, nat) -> U, y: U) returns (i: nat)
    requires y in PickMap(xs, keep, f)
    ensures i < |xs| && keep(xs[i]) && y == f(xs[i], i)
  {
    var idx := Where(xs, keep);
    var k :| 0 <= k < |PickMap(xs, keep, f)| && PickMap(xs, keep, f)[k] == y;
    i := idx[k];
  }

  /** The sheet row number of data position i: (x, i) => i + 2. */
  function SheetRow<T>(): (T, nat) -> nat {
    (x: T, i: nat) => i + 2
  }

  /** The sheet rows of the kept elements hold exactly the kept positions,
      in increasing order. */
  lemma PickRowsMember<T>(xs: seq<T>, keep: T -> bool, i: nat)
    ensures i + 2 in PickMap(xs, keep, SheetRow()) <==> i < |xs| && keep(xs[i])
    ensures forall k, l :: 0 <= k < l < |PickMap(xs, keep, SheetRow())| ==>
              PickMap(xs, keep, SheetRow())[k] < PickMap(xs, keep, SheetRow())[l]
  {
    var idx := Where(xs, keep);
    var m := PickMap(xs, keep, SheetRow());
    WhereMember(xs, keep, i);
    assert forall k :: 0 <= k < |m| ==> m[k] == idx[k] + 2;
  }

  // ------------------------------------------------------------ filters

  /** The elements whose key is (same) or is not (!same) the given one, in
      order: Array.prototype.filter with a key test. */
  function Sift<T, K(==)>(data: seq<T>, key: T -> K, k: K, same: bool): (r: seq<T>)
    ensures |r| <= |data|
    decreases |data|
  {
    if data == [] then []
    else (if (key(data[0]) == k) == same then [data[0]] else []) + Sift(data[1..], key, k, same)
  }

  lemma {:induction false} SiftConcat<T, K>(a: seq<T>, b: seq<T>, key: T -> K, k: K, same: bool)
    ensures Sift(a + b, key, k, same) == Sift(a, key, k, same) + Sift(b, key, k, same)
    decreases |a|
  {
    if a == [] {
      assert a + b == b;
    } else {
      var head := if (key(a[0]) == k) == same then [a[0]] else [];
      var p, q := Sift(a[1..], key, k, same), Sift(b, key, k, same);
      SiftConcat(a[1..], b, key, k, same);
      assert (a + b)[0] == a[0] && (a + b)[1..] == a[1..] + b;
      assert Sift(a + b, key, k, same) == head + (p + q);
      assert Sift(a, key, k, same) == head + p;
      assert head + (p + q) == (head + p) + q;
    }
  }

  lemma {:induction false} SiftAll<T, K>(xs: seq<T>, key: T -> K, k: K)
    requires forall i :: 0 <= i < |xs| ==> key(xs[i]) == k
    ensures Sift(xs, key, k, false) == [] && Sift(xs, key, k, true) == xs
    decreases |xs|
  {
    if xs != [] {
      SiftAll(xs[1..], key, k);
    }
  }

  lemma {:induction false} SiftOfSift<T, K>(data: seq<T>, key: T -> K, k: K)
    ensures Sift(Sift(data, key, k, false), key, k, false) == Sift(data, key, k, false)
    ensures Sift(Sift(data, key, k, false), key, k, true) == []
    decreases |data|
  {
    if data != [] {
      var head := if key(data[0]) != k then [data[0]] else [];
      SiftOfSift(data[1..], key, k);
      SiftConcat(head, Sift(data[1..], key, k, false), key, k, false);
      SiftConcat(head, Sift(data[1..], key, k, false), key, k, true);
      if head != [] {
        assert head[1..] == [];
      }
    }
  }

  lemma {:induction false} SiftCount<T, K>(data: seq<T>, key: T -> K, k: K)
    ensures |Sift(data, key, k, false)| + |Sift(data, key, k, true)| == |data|
    decreases |data|
  {
    if data != [] {
      SiftCount(data[1..], key, k);
    }
  }

  lemma {:induction false} SiftWidth<U, K>(data: seq<seq<U>>, key: seq<U> -> K, k: K, same: bool, w: nat)
    requires forall i :: 0 <= i < |data| ==> |data[i]| == w
    ensures forall i :: 0 <= i < |Sift(data, key, k, same)| ==> |Sift(data, key, k, same)[i]| == w
    decreases |data|
  {
    if data != [] {
      SiftWidth(data[1..], key, k, same, w);
    }
  }

  /** An element is kept exactly when it occurs and its key test passes. */
  lemma {:induction false} SiftHas<T, K>(data: seq<T>, key: T -> K, k: K, same: bool, x: T)
    ensures x in Sift(data, key, k, same) <==> x in data && (key(x) == k) == same
    decreases |data|
  {
    if data != [] {
      SiftHas(data[1..], key, k, same, x);
      assert data == [data[0]] + data[1..];
    }
  }

  /** Key functions that agree on every element sift alike. */
  lemma {:induction false} SiftAgree<T, K>(xs: seq<T>, key1: T -> K, key2: T -> K, k: K, same: bool)
    requires forall i :: 0 <= i < |xs| ==> key1(xs[i]) == key2(xs[i])
    ensures Sift(xs, key1, k, same) == Sift(xs, key2, k, same)
    decreases |xs|
  {
    if xs != [] {
      SiftAgree(xs[1..], key1, key2, k, same);
    }
  }

  /** With no element under k, nothing is kept and nothing is dropped. */
  lemma {:induction false} SiftNone<T, K>(xs: seq<T>, key: T -> K, k: K)
    requires forall i :: 0 <= i < |xs| ==> key(xs[i]) != k
    ensures Sift(xs, key, k, true) == [] && Sift(xs, key, k, false) == xs
    decreases |xs|
  {
    if xs != [] {
      SiftNone(xs[1..], key, k);
    }
  }

  /** The partition loop `if (key(r) === k) block.push(r); else
      other.push(r)` over xs. */
  method Split<T, K(==)>(xs: seq<T>, key: T -> K, k: K) returns (other: seq<T>, block: seq<T>)
    ensures other == Sift(xs, key, k, false) && block == Sift(xs, key, k, true)
  {
    other, block := [], [];
    var i := 0;
    while i < |xs|
      invariant 0 <= i <= |xs|
      invariant other == Sift(xs[..i], key, k, false) && block == Sift(xs[..i], key, k, true)
    {
      var x := xs[i];
      assert xs[..i + 1] == xs[..i] + [x];
      SiftConcat(xs[..i], [x], key, k, true);
      SiftConcat(xs[..i], [x], key, k, false);
      if key(x) == k {
        block := block + [x];
      } else {
        other := other + [x];
      }
      i := i + 1;
    }
    assert xs[..i] == xs;
  }
}
