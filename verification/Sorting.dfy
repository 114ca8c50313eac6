/** Stable sorting by a string key, and sorting with removal of duplicates, in Rust string order. */
module Sorting {
  import opened Canonical

  datatype Keyed<T> = Keyed(key: string, value: T)

  /** Insert behind every element whose key is not greater. */
  function Insert<T>(x: Keyed<T>, s: seq<Keyed<T>>): seq<Keyed<T>>
  {
    if s == [] then [x]
    else if Before(x.key, s[0].key) then [x] + s
    else [s[0]] + Insert(x, s[1..])
  }

  function Sort<T>(s: seq<Keyed<T>>): seq<Keyed<T>>
  {
    if s == [] then [] else Insert(s[|s| - 1], Sort(s[..|s| - 1]))
  }

  ghost predicate Ordered<T>(s: seq<Keyed<T>>)
  {
    forall i, j :: 0 <= i < j < |s| ==> !Before(s[j].key, s[i].key)
  }

  lemma {:induction false} InsertPermutes<T>(x: Keyed<T>, s: seq<Keyed<T>>)
    ensures multiset(Insert(x, s)) == multiset(s) + multiset{x}
  {
    if s != [] && !Before(x.key, s[0].key) {
      InsertPermutes(x, s[1..]);
      assert s == [s[0]] + s[1..];
    }
  }

  lemma {:induction false} SortPermutes<T>(s: seq<Keyed<T>>)
    ensures multiset(Sort(s)) == multiset(s)
    decreases |s|
  {
    if s != [] {
      SortPermutes(s[..|s| - 1]);
      InsertPermutes(s[|s| - 1], Sort(s[..|s| - 1]));
      LastMultiset(s);
    }
  }

  lemma LastMultiset<T>(s: seq<T>)
    requires s != []
    ensures multiset(s) == multiset(s[..|s| - 1]) + multiset{s[|s| - 1]}
  {
    assert s == s[..|s| - 1] + [s[|s| - 1]];
  }

  lemma NotBeforeTransitive(a: string, b: string, c: string)
    requires !Before(b, a) && !Before(c, b)
    ensures !Before(c, a)
  {
    if Before(c, a) {
      BeforeTotal(a, b);
      if a == b {
        assert false;
      } else {
        BeforeTransitive(c, a, b);
        assert false;
      }
    }
  }

  lemma {:induction false} InsertOrders<T>(x: Keyed<T>, s: seq<Keyed<T>>)
    requires Ordered(s)
    ensures Ordered(Insert(x, s))
  {
    if s != [] {
      if Before(x.key, s[0].key) {
        BeforeAsymmetric(x.key, s[0].key);
        forall j | 0 <= j < |s| ensures !Before(s[j].key, x.key) {
          if j > 0 {
            NotBeforeTransitive(x.key, s[0].key, s[j].key);
          }
        }
      } else {
        InsertOrders(x, s[1..]);
        InsertPermutes(x, s[1..]);
        var r := Insert(x, s[1..]);
        forall j | 0 <= j < |r| ensures !Before(r[j].key, s[0].key) {
          assert r[j] in multiset(r);
          if r[j] != x {
            assert r[j] in multiset(s[1..]);
            var k :| 0 <= k < |s[1..]| && s[1..][k] == r[j];
            assert s[k + 1] == r[j];
          }
        }
      }
    }
  }

  lemma {:induction false} SortOrders<T>(s: seq<Keyed<T>>)
    ensures Ordered(Sort(s))
    decreases |s|
  {
    if s != [] {
      SortOrders(s[..|s| - 1]);
      InsertOrders(s[|s| - 1], Sort(s[..|s| - 1]));
    }
  }

  /** No two different elements share a key. */
  ghost predicate KeyDetermines<T>(s: seq<Keyed<T>>)
  {
    forall i, j :: 0 <= i < |s| && 0 <= j < |s| && s[i].key == s[j].key ==> s[i] == s[j]
  }

  lemma KeyDeterminesPermuted<T>(a: seq<Keyed<T>>, b: seq<Keyed<T>>)
    requires KeyDetermines(a) && multiset(a) == multiset(b)
    ensures KeyDetermines(b)
  {
    forall i, j | 0 <= i < |b| && 0 <= j < |b| && b[i].key == b[j].key ensures b[i] == b[j] {
      assert b[i] in multiset(a) && b[j] in multiset(a);
      var k :| 0 <= k < |a| && a[k] == b[i];
      var l :| 0 <= l < |a| && a[l] == b[j];
      assert a[k].key == a[l].key;
    }
  }

  lemma HeadsAgree<T>(a: seq<Keyed<T>>, b: seq<Keyed<T>>)
    requires Ordered(a) && Ordered(b) && a != [] && b != [] && KeyDetermines(a)
    requires a[0] in b && b[0] in a
    ensures a[0] == b[0]
  {
    var i :| 0 <= i < |b| && b[i] == a[0];
    var j :| 0 <= j < |a| && a[j] == b[0];
    assert i > 0 ==> !Before(b[i].key, b[0].key);
    assert j > 0 ==> !Before(a[j].key, a[0].key);
    BeforeTotal(a[0].key, b[0].key);
  }

  lemma TailMultiset<T>(s: seq<Keyed<T>>)
    requires s != []
    ensures multiset(s[1..]) == multiset(s) - multiset{s[0]}
  {
    assert s == [s[0]] + s[1..];
  }

  lemma {:induction false} OrderedIsUnique<T>(a: seq<Keyed<T>>, b: seq<Keyed<T>>)
    requires Ordered(a) && Ordered(b) && multiset(a) == multiset(b) && KeyDetermines(a)
    ensures a == b
    decreases |a|
  {
    assert |a| == |multiset(a)| && |b| == |multiset(b)|;
    if a != [] {
      assert a[0] in multiset(b) && b[0] in multiset(a);
      HeadsAgree(a, b);
      TailMultiset(a);
      TailMultiset(b);
      OrderedIsUnique(a[1..], b[1..]);
      assert a == [a[0]] + a[1..] && b == [b[0]] + b[1..];
    }
  }

  /** Sorting permuted inputs gives the same list when keys determine elements. */
  lemma SortIgnoresOrder<T>(a: seq<Keyed<T>>, b: seq<Keyed<T>>)
    requires multiset(a) == multiset(b) && KeyDetermines(a)
    ensures Sort(a) == Sort(b)
  {
    SortOrders(a);
    SortOrders(b);
    SortPermutes(a);
    SortPermutes(b);
    KeyDeterminesPermuted(a, Sort(a));
    OrderedIsUnique(Sort(a), Sort(b));
  }

  // ---- sorting with removal of duplicates -------------------------------------------------

  function InsertNew(x: string, s: seq<string>): seq<string>
  {
    if s == [] then [x]
    else if x == s[0] then s
    else if Before(x, s[0]) then [x] + s
    else [s[0]] + InsertNew(x, s[1..])
  }

  function SortDedup(s: seq<string>): seq<string>
  {
    if s == [] then [] else InsertNew(s[|s| - 1], SortDedup(s[..|s| - 1]))
  }

  ghost predicate Strict(s: seq<string>)
  {
    forall i, j :: 0 <= i < j < |s| ==> Before(s[i], s[j])
  }

  lemma {:induction false} InsertNewElements(x: string, s: seq<string>, y: string)
    ensures y in InsertNew(x, s) <==> y == x || y in s
  {
    if s != [] && x != s[0] && !Before(x, s[0]) {
      InsertNewElements(x, s[1..], y);
      assert s == [s[0]] + s[1..];
    }
  }

  lemma {:induction false} InsertNewStrict(x: string, s: seq<string>)
    requires Strict(s)
    ensures Strict(InsertNew(x, s))
  {
    if s != [] && x != s[0] {
      if Before(x, s[0]) {
        forall j | 0 <= j < |s| ensures Before(x, s[j]) {
          if j > 0 {
            BeforeTransitive(x, s[0], s[j]);
          }
        }
      } else {
        BeforeTotal(x, s[0]);
        InsertNewStrict(x, s[1..]);
        var r := InsertNew(x, s[1..]);
        forall j | 0 <= j < |r| ensures Before(s[0], r[j]) {
          InsertNewElements(x, s[1..], r[j]);
          if r[j] != x {
            var k :| 0 <= k < |s[1..]| && s[1..][k] == r[j];
            assert s[k + 1] == r[j];
          }
        }
      }
    }
  }

  lemma {:induction false} SortDedupElements(s: seq<string>, y: string)
    ensures y in SortDedup(s) <==> y in s
    decreases |s|
  {
    if s != [] {
      SortDedupElements(s[..|s| - 1], y);
      InsertNewElements(s[|s| - 1], SortDedup(s[..|s| - 1]), y);
      assert s == s[..|s| - 1] + [s[|s| - 1]];
    }
  }

  lemma {:induction false} SortDedupStrict(s: seq<string>)
    ensures Strict(SortDedup(s))
    decreases |s|
  {
    if s != [] {
      SortDedupStrict(s[..|s| - 1]);
      InsertNewStrict(s[|s| - 1], SortDedup(s[..|s| - 1]));
    }
  }

  lemma {:induction false} StrictIsUnique(a: seq<string>, b: seq<string>)
    requires Strict(a) && Strict(b) && forall y :: y in a <==> y in b
    ensures a == b
    decreases |a|
  {
    HasHead(a);
    HasHead(b);
    if a != [] && b != [] {
      assert a[0] in b;
      assert b[0] in a;
      FirstIsFirst(a, b);
      FirstIsFirst(b, a);
      BeforeTotal(a[0], b[0]);
      forall y ensures y in a[1..] <==> y in b[1..] {
        TailMembers(a, y);
        TailMembers(b, y);
      }
      StrictIsUnique(a[1..], b[1..]);
      assert a == [a[0]] + a[1..] && b == [b[0]] + b[1..];
    }
  }

  lemma HasHead(s: seq<string>)
    ensures s != [] ==> exists y :: y in s
  {
    if s != [] {
      assert s[0] in s;
    }
  }

  lemma FirstIsFirst(a: seq<string>, b: seq<string>)
    requires Strict(a) && a != [] && b != [] && b[0] in a
    ensures !Before(b[0], a[0])
  {
    var i :| 0 <= i < |a| && a[i] == b[0];
    if i > 0 {
      BeforeAsymmetric(a[0], a[i]);
    } else {
      NotBeforeItself(a[0]);
    }
  }

  lemma NotBeforeItself(a: string)
    ensures !Before(a, a)
  {
    if a != "" {
      NotBeforeItself(a[1..]);
    }
  }

  lemma TailMembers(a: seq<string>, y: string)
    requires Strict(a) && a != []
    ensures y in a[1..] <==> y in a && y != a[0]
  {
    assert a == [a[0]] + a[1..];
    if y in a[1..] {
      var i :| 0 <= i < |a[1..]| && a[1..][i] == y;
      assert a[i + 1] == y;
      BeforeAsymmetric(a[0], a[i + 1]);
    }
  }

  /** The result depends on the set of elements only. */
  lemma SortDedupIgnoresOrder(a: seq<string>, b: seq<string>)
    requires forall y :: y in a <==> y in b
    ensures SortDedup(a) == SortDedup(b)
  {
    SortDedupStrict(a);
    SortDedupStrict(b);
    forall y ensures y in SortDedup(a) <==> y in SortDedup(b) {
      SortDedupElements(a, y);
      SortDedupElements(b, y);
    }
    StrictIsUnique(SortDedup(a), SortDedup(b));
  }
}
