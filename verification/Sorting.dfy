/**
 * `Array.prototype.sort` on key/value pairs: stable, ascending by key text.
 * Object entries are sorted by name; unordered arrays by the printed text of their items.
 */
module Sorting {
  import opened Text

  ghost predicate Ascending<T>(s: seq<(string, T)>) {
    forall i, j :: 0 <= i < j < |s| ==> !Less(s[j].0, s[i].0)
  }

  predicate DistinctKeys<T>(s: seq<(string, T)>) {
    forall i, j :: 0 <= i < j < |s| ==> s[i].0 != s[j].0
  }

  function Insert<T>(p: (string, T), s: seq<(string, T)>): (r: seq<(string, T)>)
    ensures multiset(r) == multiset(s) + multiset{p}
    ensures Ascending(s) ==> Ascending(r)
  {
    if s == [] || !Less(s[0].0, p.0) then
      assert Ascending(s) ==> Ascending([p] + s) by { InsertFront(p, s); }
      [p] + s
    else
      var rest := Insert(p, s[1..]);
      assert multiset([s[0]] + rest) == multiset(s) + multiset{p} by {
        assert s == [s[0]] + s[1..];
      }
      assert Ascending(s) ==> Ascending([s[0]] + rest) by { InsertBack(p, s, rest); }
      [s[0]] + rest
  }

  lemma InsertFront<T>(p: (string, T), s: seq<(string, T)>)
    requires s == [] || !Less(s[0].0, p.0)
    ensures Ascending(s) ==> Ascending([p] + s)
  {
    if Ascending(s) {
      forall j | 0 <= j < |s|
        ensures !Less(s[j].0, p.0)
      {
        LessIsTotal(s[0].0, p.0);
        if j > 0 && Less(s[j].0, p.0) {
          LessIsTotal(s[0].0, s[j].0);
          if Less(p.0, s[0].0) {
            LessIsTransitive(s[j].0, p.0, s[0].0);
          }
        }
      }
    }
  }

  lemma InsertBack<T>(p: (string, T), s: seq<(string, T)>, rest: seq<(string, T)>)
    requires s != [] && Less(s[0].0, p.0)
    requires multiset(rest) == multiset(s[1..]) + multiset{p}
    requires Ascending(s[1..]) ==> Ascending(rest)
    ensures Ascending(s) ==> Ascending([s[0]] + rest)
  {
    if Ascending(s) {
      forall j | 0 <= j < |rest|
        ensures !Less(rest[j].0, s[0].0)
      {
        assert rest[j] in multiset(rest);
        assert rest[j] == p || rest[j] in s[1..];
        LessIsStrict(s[0].0, p.0);
      }
    }
  }

  function SortPairs<T>(s: seq<(string, T)>): (r: seq<(string, T)>)
    ensures multiset(r) == multiset(s)
    ensures Ascending(r)
    ensures |r| == |s|
    ensures forall i :: 0 <= i < |r| ==> r[i] in s
  {
    if s == [] then []
    else
      assert s == [s[0]] + s[1..];
      var r := Insert(s[0], SortPairs(s[1..]));
      assert multiset(r) == multiset(s);
      assert |multiset(r)| == |r| && |multiset(s)| == |s|;
      assert forall i :: 0 <= i < |r| ==> r[i] in multiset(r);
      r
  }

  /** Every element of the input survives sorting. */
  lemma SortKeeps<T>(s: seq<(string, T)>, i: nat) returns (j: nat)
    requires i < |s|
    ensures j < |s| && SortPairs(s)[j] == s[i]
  {
    assert s[i] in multiset(SortPairs(s));
    j :| 0 <= j < |SortPairs(s)| && SortPairs(s)[j] == s[i];
  }

  lemma SortKeepsDistinct<T>(s: seq<(string, T)>)
    requires DistinctKeys(s)
    ensures DistinctKeys(SortPairs(s))
  {
    var r := SortPairs(s);
    forall i, j | 0 <= i < j < |r|
      ensures r[i].0 != r[j].0
    {
      if r[i].0 == r[j].0 {
        var a :| 0 <= a < |s| && s[a] == r[i];
        var b :| 0 <= b < |s| && s[b] == r[j];
        assert a == b;
        TwiceInMultiset(r, i, j);
        assert multiset(s)[s[a]] >= 2;
        OnceInMultiset(s, a);
      }
    }
  }

  lemma TwiceInMultiset<T>(r: seq<T>, i: nat, j: nat)
    requires i < j < |r| && r[i] == r[j]
    ensures multiset(r)[r[i]] >= 2
  {
    assert r == r[..i] + [r[i]] + r[i + 1..j] + [r[j]] + r[j + 1..];
  }

  lemma OnceInMultiset<T>(s: seq<(string, T)>, a: nat)
    requires a < |s| && DistinctKeys(s)
    ensures multiset(s)[s[a]] == 1
  {
    assert s == s[..a] + [s[a]] + s[a + 1..];
    assert s[a] !in s[..a] && s[a] !in s[a + 1..];
  }

  /** Equal keys mean equal pairs. */
  ghost predicate KeyDetermines<T>(s: seq<(string, T)>) {
    forall i, j :: 0 <= i < |s| && 0 <= j < |s| && s[i].0 == s[j].0 ==> s[i] == s[j]
  }

  lemma SameHead<T>(a: seq<(string, T)>, b: seq<(string, T)>)
    requires a != [] && b != []
    requires Ascending(a) && Ascending(b) && multiset(a) == multiset(b) && KeyDetermines(a)
    ensures a[0] == b[0]
  {
    assert a[0] in multiset(b) && b[0] in multiset(a);
    var j :| 0 <= j < |b| && b[j] == a[0];
    var i :| 0 <= i < |a| && a[i] == b[0];
    LessIsTotal(a[0].0, b[0].0);
  }

  /** Two ascending arrangements of the same pairs agree when equal keys mean equal pairs. */
  lemma {:induction false} SortedUnique<T>(a: seq<(string, T)>, b: seq<(string, T)>)
    requires Ascending(a) && Ascending(b) && multiset(a) == multiset(b) && KeyDetermines(a)
    ensures a == b
  {
    assert |multiset(a)| == |a| && |multiset(b)| == |b|;
    if a != [] {
      SameHead(a, b);
      assert a == [a[0]] + a[1..] && b == [b[0]] + b[1..];
      assert multiset(a[1..]) == multiset(a) - multiset{a[0]};
      assert multiset(b[1..]) == multiset(b) - multiset{b[0]};
      SortedUnique(a[1..], b[1..]);
    }
  }

  ghost predicate HasKey<T>(s: seq<(string, T)>, key: string) {
    exists j :: 0 <= j < |s| && s[j].0 == key
  }

  lemma TailKeys<T>(a: seq<(string, T)>, b: seq<(string, T)>)
    requires a != [] && b != [] && DistinctKeys(a) && a[0].0 == b[0].0
    requires forall i :: 0 <= i < |a| ==> HasKey(b, a[i].0)
    ensures forall i :: 0 <= i < |a[1..]| ==> HasKey(b[1..], a[1..][i].0)
  {
    forall i | 0 <= i < |a[1..]|
      ensures HasKey(b[1..], a[1..][i].0)
    {
      assert HasKey(b, a[i + 1].0);
      var j :| 0 <= j < |b| && b[j].0 == a[i + 1].0;
      assert b[1..][j - 1].0 == a[1..][i].0;
    }
  }

  /** Ascending pairs with distinct keys have their key sequence fixed by the set of keys. */
  lemma {:induction false} SortedKeysUnique<T>(a: seq<(string, T)>, b: seq<(string, T)>)
    requires Ascending(a) && Ascending(b) && DistinctKeys(a) && DistinctKeys(b)
    requires |a| == |b|
    requires forall i :: 0 <= i < |a| ==> HasKey(b, a[i].0)
    requires forall i :: 0 <= i < |b| ==> HasKey(a, b[i].0)
    ensures forall i :: 0 <= i < |a| ==> a[i].0 == b[i].0
  {
    if a != [] {
      LessIsTotal(a[0].0, b[0].0);
      assert a[0].0 == b[0].0 by {
        assert HasKey(b, a[0].0) && HasKey(a, b[0].0);
      }
      TailKeys(a, b);
      TailKeys(b, a);
      SortedKeysUnique(a[1..], b[1..]);
      forall i | 0 <= i < |a|
        ensures a[i].0 == b[i].0
      {
        if i > 0 {
          assert a[1..][i - 1] == a[i] && b[1..][i - 1] == b[i];
        }
      }
    }
  }

  ghost predicate IsPermutation(p: seq<nat>, n: nat) {
    && |p| == n
    && (forall i :: 0 <= i < n ==> p[i] < n)
    && (forall i, j :: 0 <= i < j < n ==> p[i] != p[j])
  }

  function Without<T>(s: seq<T>, k: nat): seq<T>
    requires k < |s|
  {
    s[..k] + s[k + 1..]
  }

  lemma WithoutMultiset<T>(s: seq<T>, k: nat)
    requires k < |s|
    ensures multiset(s) == multiset(Without(s, k)) + multiset{s[k]}
  {
    assert s == s[..k] + [s[k]] + s[k + 1..];
  }

  /** Makes room for position `k` in a permutation and sends the last index there. */
  function Widen(q: seq<nat>, k: nat): seq<nat> {
    seq(|q|, i requires 0 <= i < |q| => if q[i] < k then q[i] else q[i] + 1) + [k]
  }

  lemma WidenIsPermutation(q: seq<nat>, k: nat)
    requires IsPermutation(q, |q|) && k <= |q|
    ensures IsPermutation(Widen(q, k), |q| + 1)
  {
  }

  lemma WithoutAt<T>(t: seq<T>, k: nat, i: nat)
    requires k < |t| && i < |t| - 1
    ensures Without(t, k)[i] == t[if i < k then i else i + 1]
  {
  }

  /** Equal multisets are rearrangements of each other. */
  lemma {:induction false} MultisetGivesPermutation<T>(s: seq<T>, t: seq<T>) returns (p: seq<nat>)
    requires multiset(s) == multiset(t)
    ensures |s| == |t| && IsPermutation(p, |s|)
    ensures forall i :: 0 <= i < |s| ==> s[i] == t[p[i]]
    decreases |s|, 0
  {
    assert |multiset(s)| == |s| && |multiset(t)| == |t|;
    if s == [] {
      p := [];
    } else {
      var n := |s| - 1;
      assert s[n] in multiset(t);
      var k :| 0 <= k < |t| && t[k] == s[n];
      var q := WithoutGivesPermutation(s, t, n, k);
      p := Widen(q, k);
      WidenIsPermutation(q, k);
      forall i | 0 <= i < |s|
        ensures s[i] == t[p[i]]
      {
        if i < n {
          WithoutAt(t, k, q[i]);
        }
      }
    }
  }

  lemma WithoutGivesPermutation<T>(s: seq<T>, t: seq<T>, n: nat, k: nat) returns (q: seq<nat>)
    requires |s| == |t| == n + 1 && k < |t| && t[k] == s[n] && multiset(s) == multiset(t)
    ensures IsPermutation(q, n)
    ensures forall i :: 0 <= i < n ==> s[i] == Without(t, k)[q[i]]
    decreases n, 1
  {
    WithoutMultiset(s, n);
    WithoutMultiset(t, k);
    assert s[..n] == Without(s, n);
    assert multiset(s[..n]) == multiset(s) - multiset{s[n]};
    assert multiset(Without(t, k)) == multiset(t) - multiset{t[k]};
    q := MultisetGivesPermutation(s[..n], Without(t, k));
    forall i | 0 <= i < n
      ensures s[i] == Without(t, k)[q[i]]
    {
      assert s[i] == s[..n][i];
    }
  }

  /** Rearranging keeps the multiset. */
  lemma {:induction false} PermutationGivesMultiset<T>(s: seq<T>, t: seq<T>, p: seq<nat>)
    requires |s| == |t| && IsPermutation(p, |s|)
    requires forall i :: 0 <= i < |s| ==> s[i] == t[p[i]]
    ensures multiset(s) == multiset(t)
    decreases |s|
  {
    if s != [] {
      var n := |s| - 1;
      var k := p[n];
      var q := seq(n, i requires 0 <= i < n => if p[i] < k then p[i] else p[i] - 1);
      WithoutMultiset(s, n);
      WithoutMultiset(t, k);
      assert s[..n] == Without(s, n);
      forall i | 0 <= i < n
        ensures s[..n][i] == Without(t, k)[q[i]]
      {
        assert s[i] == t[p[i]] && p[i] != k;
      }
      PermutationGivesMultiset(s[..n], Without(t, k), q);
    }
  }

  // ----- sorting looks at keys only -----

  /** The same keys with new values. */
  function Mapped<T, U>(s: seq<(string, T)>, f: ((string, T)) -> U): (r: seq<(string, U)>)
    ensures |r| == |s|
  {
    seq(|s|, i requires 0 <= i < |s| => (s[i].0, f(s[i])))
  }

  lemma MappedCons<T, U>(p: (string, T), s: seq<(string, T)>, f: ((string, T)) -> U)
    ensures Mapped([p] + s, f) == [(p.0, f(p))] + Mapped(s, f)
  {
  }

  lemma {:induction false} InsertMapped<T, U>(p: (string, T), s: seq<(string, T)>, f: ((string, T)) -> U)
    ensures Insert((p.0, f(p)), Mapped(s, f)) == Mapped(Insert(p, s), f)
    decreases |s|
  {
    MappedCons(p, s, f);
    if s != [] {
      assert Mapped(s, f)[1..] == Mapped(s[1..], f);
      if Less(s[0].0, p.0) {
        InsertMapped(p, s[1..], f);
        MappedCons(s[0], Insert(p, s[1..]), f);
      }
    }
  }

  lemma {:induction false} SortMapped<T, U>(s: seq<(string, T)>, f: ((string, T)) -> U)
    ensures SortPairs(Mapped(s, f)) == Mapped(SortPairs(s), f)
    decreases |s|
  {
    if s != [] {
      assert Mapped(s, f)[1..] == Mapped(s[1..], f);
      SortMapped(s[1..], f);
      InsertMapped(s[0], SortPairs(s[1..]), f);
    }
  }
}
