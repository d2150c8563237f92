/** Filtering, uniqueness and counting over sequences of rows. */
module Sequences {

  datatype Option<+T> = None | Some(value: T)

  /** The rows of `s` a loop that appends every accepted row collects. */
  function Filter<T>(s: seq<T>, p: T -> bool): (r: seq<T>)
    ensures |r| <= |s|
  {
    if s == [] then []
    else
      var last := s[|s| - 1];
      Filter(s[..|s| - 1], p) + if p(last) then [last] else []
  }

  /** Exactly the accepted rows are kept. */
  lemma {:induction false} FilterMembers<T>(s: seq<T>, p: T -> bool)
    ensures forall x | x in Filter(s, p) :: x in s && p(x)
    ensures forall x | x in s :: p(x) ==> x in Filter(s, p)
  {
    if s != [] {
      FilterMembers(s[..|s| - 1], p);
      assert s == s[..|s| - 1] + [s[|s| - 1]];
    }
  }

  lemma FilterSnoc<T>(s: seq<T>, i: nat, p: T -> bool)
    requires i < |s|
    ensures Filter(s[..i + 1], p) == Filter(s[..i], p) + if p(s[i]) then [s[i]] else []
  {
    assert s[..i + 1][..i] == s[..i];
  }

  lemma Assoc<T>(a: seq<T>, b: seq<T>, c: seq<T>)
    ensures a + (b + c) == a + b + c
  {
  }

  lemma FilterLast<T>(s: seq<T>, x: T, p: T -> bool)
    ensures Filter(s + [x], p) == Filter(s, p) + if p(x) then [x] else []
  {
    assert (s + [x])[..|s|] == s;
  }

  lemma {:induction false} FilterAppend<T>(s: seq<T>, t: seq<T>, p: T -> bool)
    ensures Filter(s + t, p) == Filter(s, p) + Filter(t, p)
  {
    if t == [] {
      assert s + t == s && Filter(t, p) == [];
    } else {
      hide Filter;
      var init, x := t[..|t| - 1], t[|t| - 1];
      FilterAppend(s, init, p);
      FilterLast(s + init, x, p);
      FilterLast(init, x, p);
      Assoc(s, init, [x]);
      Assoc(Filter(s, p), Filter(init, p), if p(x) then [x] else []);
      assert t == init + [x];
    }
  }

  lemma {:induction false} FilterEverything<T>(s: seq<T>, p: T -> bool)
    requires forall x :: x in s ==> p(x)
    ensures Filter(s, p) == s
  {
    if s != [] {
      FilterEverything(s[..|s| - 1], p);
      assert s == s[..|s| - 1] + [s[|s| - 1]];
    }
  }

  /** Keeping only rows that satisfy both tests is keeping twice. */
  lemma {:induction false} FilterTwice<T>(s: seq<T>, p: T -> bool, q: T -> bool)
    requires forall x :: x in s && q(x) ==> p(x)
    ensures Filter(Filter(s, p), q) == Filter(s, q)
  {
    if s != [] {
      FilterTwice(s[..|s| - 1], p, q);
      var last := s[|s| - 1];
      FilterAppend(Filter(s[..|s| - 1], p), if p(last) then [last] else [], q);
      FilterOne(last, q);
    }
  }

  /** The rows kept divide into those that pass another test and those that do not. */
  lemma {:induction false} FilterSplit<T>(s: seq<T>, p: T -> bool, notP: T -> bool, q: T -> bool)
    requires forall x :: x in s ==> notP(x) == !p(x)
    ensures |Filter(s, q)| == |Filter(Filter(s, p), q)| + |Filter(Filter(s, notP), q)|
  {
    if s != [] {
      var init, last := s[..|s| - 1], s[|s| - 1];
      assert last in s;
      FilterSplit(init, p, notP, q);
      FilterAppend(Filter(init, p), if p(last) then [last] else [], q);
      FilterAppend(Filter(init, notP), if notP(last) then [last] else [], q);
      FilterOne(last, q);
    }
  }

  lemma FilterOne<T>(x: T, p: T -> bool)
    ensures Filter([x], p) == if p(x) then [x] else []
  {
    assert [x][..0] == [] && Filter<T>([], p) == [];
  }

  /** Replacing one row changes the number kept by that row. */
  lemma FilterReplaced<T>(s: seq<T>, i: nat, y: T, p: T -> bool)
    requires i < |s|
    ensures |Filter(s[i := y], p)| + (if p(s[i]) then 1 else 0) == |Filter(s, p)| + if p(y) then 1 else 0
  {
    hide Filter;
    var front, x, back := s[..i], s[i], s[i + 1..];
    assert s == front + ([x] + back) && s[i := y] == front + ([y] + back);
    FilterAppend(front, [x] + back, p);
    FilterAppend([x], back, p);
    FilterAppend(front, [y] + back, p);
    FilterAppend([y], back, p);
    FilterOne(x, p);
    FilterOne(y, p);
  }

  lemma FilterMiddle<T>(front: seq<T>, x: T, back: seq<T>, p: T -> bool)
    ensures multiset(Filter(front + [x] + back, p)) == multiset(Filter(front + back, p)) + multiset(Filter([x], p))
  {
    FilterAppend(front, back, p);
    FilterAppend(front + [x], back, p);
    FilterAppend(front, [x], p);
  }

  lemma FindLast<T>(s: seq<T>, t: seq<T>) returns (front: seq<T>, x: T, back: seq<T>)
    requires multiset(s) == multiset(t) && s != []
    ensures x == s[|s| - 1] && t == front + [x] + back && multiset(s[..|s| - 1]) == multiset(front + back)
  {
    x := s[|s| - 1];
    assert s == s[..|s| - 1] + [x];
    assert x in multiset(t);
    var i :| 0 <= i < |t| && t[i] == x;
    front, back := t[..i], t[i + 1..];
    assert t == front + [x] + back;
    assert multiset(front + back) == multiset(t) - multiset{x};
  }

  /** The kept rows depend on the rows offered, not on their order. */
  lemma {:induction false} FilterPermuted<T>(s: seq<T>, t: seq<T>, p: T -> bool)
    requires multiset(s) == multiset(t)
    ensures multiset(Filter(s, p)) == multiset(Filter(t, p))
    ensures |Filter(s, p)| == |Filter(t, p)|
  {
    hide Filter;
    if s == [] {
      assert |multiset(t)| == 0;
      assert t == [];
    } else {
      var front, x, back := FindLast(s, t);
      var init := s[..|s| - 1];
      FilterPermuted(init, front + back, p);
      FilterMiddle(init, x, [], p);
      FilterMiddle(front, x, back, p);
      assert init + [] == init && init + [x] + [] == s;
    }
    assert |multiset(Filter(s, p))| == |multiset(Filter(t, p))|;
  }

  /** `i` is the only accepted position of `s`. */
  predicate OnlyAt<T>(s: seq<T>, p: T -> bool, i: int)
  {
    0 <= i < |s| && p(s[i]) && forall j :: 0 <= j < |s| && p(s[j]) ==> j == i
  }

  function Unique<T>(s: seq<T>): Option<T> { if |s| == 1 then Some(s[0]) else None }

  lemma {:induction false} FilterNone<T>(s: seq<T>, p: T -> bool)
    requires forall j :: 0 <= j < |s| ==> !p(s[j])
    ensures Filter(s, p) == []
  {
    if s != [] { FilterNone(s[..|s| - 1], p); }
  }

  lemma {:induction false} AtMostOneRow<T>(rows: seq<T>, p: T -> bool)
    requires forall i, j :: 0 <= i < j < |rows| ==> !(p(rows[i]) && p(rows[j]))
    ensures |Filter(rows, p)| <= 1
  {
    if rows != [] {
      var init := rows[..|rows| - 1];
      AtMostOneRow(init, p);
      if p(rows[|rows| - 1]) { FilterNone(init, p); }
    }
  }

  lemma TwoRows<T>(s: seq<T>, p: T -> bool, i: nat, j: nat)
    requires i < j < |s| && p(s[i]) && p(s[j])
    ensures |Filter(s, p)| > 1
  {
    var front, back := s[..j], s[j..];
    assert s == front + back && front[i] == s[i] && back[0] == s[j];
    FilterAppend(front, back, p);
    FilterMembers(front, p);
    FilterMembers(back, p);
    assert s[i] in Filter(front, p) && s[j] in Filter(back, p);
  }

  lemma MoreThanOneIff<T>(s: seq<T>, p: T -> bool)
    ensures |Filter(s, p)| > 1 <==> exists i, j :: 0 <= i < j < |s| && p(s[i]) && p(s[j])
  {
    if i, j :| 0 <= i < j < |s| && p(s[i]) && p(s[j]) { TwoRows(s, p, i, j); } else { AtMostOneRow(s, p); }
  }

  lemma {:induction false} OnlyAtIsUnique<T>(s: seq<T>, p: T -> bool, i: int)
    requires OnlyAt(s, p, i)
    ensures Unique(Filter(s, p)) == Some(s[i])
  {
    var init := s[..|s| - 1];
    if i == |s| - 1 {
      FilterNone(init, p);
    } else {
      assert OnlyAt(init, p, i);
      OnlyAtIsUnique(init, p, i);
    }
  }

  lemma {:induction false} UniqueIsOnlyAt<T>(s: seq<T>, p: T -> bool) returns (i: int)
    requires |Filter(s, p)| == 1
    ensures OnlyAt(s, p, i)
  {
    var init := s[..|s| - 1];
    if p(s[|s| - 1]) {
      i := |s| - 1;
      assert Filter(init, p) == [];
      FilterMembers(init, p);
      forall j | 0 <= j < |init| ensures !p(s[j]) { assert s[j] in init && s[j] !in Filter(init, p); }
    } else {
      i := UniqueIsOnlyAt(init, p);
      forall j | 0 <= j < |s| && p(s[j]) ensures j == i { assert init[j] == s[j]; }
    }
  }

  /** The collected slice has length one exactly when one position is accepted. */
  lemma UniqueIff<T>(s: seq<T>, p: T -> bool)
    ensures Unique(Filter(s, p)).Some? <==> exists i :: OnlyAt(s, p, i)
    ensures forall i :: OnlyAt(s, p, i) ==> Unique(Filter(s, p)) == Some(s[i])
  {
    if |Filter(s, p)| == 1 { var i := UniqueIsOnlyAt(s, p); }
    forall i | OnlyAt(s, p, i) ensures Unique(Filter(s, p)) == Some(s[i]) { OnlyAtIsUnique(s, p, i); }
  }

  lemma UniquePermuted<T>(s: seq<T>, t: seq<T>, p: T -> bool)
    requires multiset(s) == multiset(t)
    ensures Unique(Filter(s, p)) == Unique(Filter(t, p))
  {
    FilterPermuted(s, t, p);
    var f, g := Filter(s, p), Filter(t, p);
    if |f| == 1 {
      assert f == [f[0]] && g == [g[0]];
      assert f[0] in multiset(g);
    }
  }

  function Map<T, U>(s: seq<T>, f: T -> U): (r: seq<U>)
    ensures |r| == |s| && forall i :: 0 <= i < |s| ==> r[i] == f(s[i])
  {
    if s == [] then [] else Map(s[..|s| - 1], f) + [f(s[|s| - 1])]
  }

  lemma {:induction false} MapAppend<T, U>(s: seq<T>, t: seq<T>, f: T -> U)
    ensures Map(s + t, f) == Map(s, f) + Map(t, f)
  {
  }

  /** Testing converted rows is converting tested rows. */
  lemma {:induction false} FilterMap<T, U>(s: seq<T>, f: T -> U, p: U -> bool, q: T -> bool)
    requires forall x | x in s :: q(x) == p(f(x))
    ensures Filter(Map(s, f), p) == Map(Filter(s, q), f)
  {
    if s != [] {
      var init, last := s[..|s| - 1], s[|s| - 1];
      FilterMap(init, f, p, q);
      assert Map(s, f)[..|s| - 1] == Map(init, f);
      MapAppend(Filter(init, q), if q(last) then [last] else [], f);
    }
  }

  lemma {:induction false} MapPermuted<T, U>(s: seq<T>, t: seq<T>, f: T -> U)
    requires multiset(s) == multiset(t)
    ensures multiset(Map(s, f)) == multiset(Map(t, f))
  {
    if s == [] {
      assert |multiset(t)| == 0;
      assert t == [];
    } else {
      var front, x, back := FindLast(s, t);
      MapPermuted(s[..|s| - 1], front + back, f);
      assert s == s[..|s| - 1] + [x];
      MapAppend(front, back, f);
      MapAppend(front + [x], back, f);
      MapAppend(front, [x], f);
    }
  }

  /** What a loop writes when each row contributes a few entries. */
  function Flat<T, U>(s: seq<T>, f: T -> seq<U>): seq<U>
  {
    if s == [] then [] else Flat(s[..|s| - 1], f) + f(s[|s| - 1])
  }

  lemma FlatLast<T, U>(s: seq<T>, x: T, f: T -> seq<U>)
    ensures Flat(s + [x], f) == Flat(s, f) + f(x)
  {
    assert (s + [x])[..|s|] == s;
  }

  lemma FlatSnoc<T, U>(s: seq<T>, i: nat, f: T -> seq<U>)
    requires i < |s|
    ensures Flat(s[..i + 1], f) == Flat(s[..i], f) + f(s[i])
  {
    assert s[..i + 1][..i] == s[..i];
  }

  lemma {:induction false} FlatAppend<T, U>(s: seq<T>, t: seq<T>, f: T -> seq<U>)
    ensures Flat(s + t, f) == Flat(s, f) + Flat(t, f)
  {
    if t == [] {
      assert s + t == s;
    } else {
      var u, init := s + t, t[..|t| - 1];
      FlatAppend(s, init, f);
      assert u[..|u| - 1] == s + init && u[|u| - 1] == t[|t| - 1];
      assert Flat(u, f) == (Flat(s, f) + Flat(init, f)) + f(t[|t| - 1]);
    }
  }

  /** Filtering contributions that pass or fail as a whole is filtering their rows. */
  lemma {:induction false} FilterFlat<T, U>(s: seq<T>, f: T -> seq<U>, p: U -> bool, q: T -> bool)
    requires forall x :: x in s ==> Filter(f(x), p) == if q(x) then f(x) else []
    ensures Filter(Flat(s, f), p) == Flat(Filter(s, q), f)
  {
    if s != [] {
      hide *;
      var init, x := s[..|s| - 1], s[|s| - 1];
      assert s == init + [x] && x in s;
      FilterFlat(init, f, p, q);
      FlatLast(init, x, f);
      FilterLast(init, x, q);
      FilterAppend(Flat(init, f), f(x), p);
      if q(x) {
        FlatLast(Filter(init, q), x, f);
      } else {
        assert Filter(init, q) + [] == Filter(init, q) && Filter(Flat(init, f), p) + [] == Filter(Flat(init, f), p);
      }
    }
  }

  lemma {:induction false} InFlat<T, U>(s: seq<T>, f: T -> seq<U>, x: T, y: U)
    requires x in s && y in f(x)
    ensures y in Flat(s, f)
  {
    if x != s[|s| - 1] { InFlat(s[..|s| - 1], f, x, y); }
  }

  lemma FlatOne<T, U>(x: T, f: T -> seq<U>)
    ensures Flat([x], f) == f(x)
  {
    assert [x][..0] == [] && Flat<T, U>([], f) == [];
  }

  lemma FlatMiddle<T, U>(front: seq<T>, x: T, back: seq<T>, f: T -> seq<U>)
    ensures multiset(Flat(front + [x] + back, f)) == multiset(Flat(front + back, f)) + multiset(f(x))
  {
    FlatAppend(front, back, f);
    FlatAppend(front + [x], back, f);
    FlatAppend(front, [x], f);
    FlatOne(x, f);
  }

  /** The entries written do not depend on the order in which the rows are visited. */
  lemma {:induction false} FlatPermuted<T, U>(s: seq<T>, t: seq<T>, f: T -> seq<U>)
    requires multiset(s) == multiset(t)
    ensures multiset(Flat(s, f)) == multiset(Flat(t, f))
  {
    hide Flat;
    if s == [] {
      assert |multiset(t)| == 0;
      assert t == [];
    } else {
      var front, x, back := FindLast(s, t);
      var init := s[..|s| - 1];
      FlatPermuted(init, front + back, f);
      FlatMiddle(init, x, [], f);
      FlatMiddle(front, x, back, f);
      assert init + [] == init && init + [x] + [] == s;
    }
  }

  lemma {:induction false} FlatSame<T, U>(s: seq<T>, f: T -> seq<U>, g: T -> seq<U>)
    requires forall x | x in s :: f(x) == g(x)
    ensures Flat(s, f) == Flat(s, g)
  {
    if s != [] { FlatSame(s[..|s| - 1], f, g); }
  }

  lemma {:induction false} MapFlat<T, U, V>(s: seq<T>, f: T -> seq<U>, g: U -> V, h: T -> seq<V>)
    requires forall x | x in s :: h(x) == Map(f(x), g)
    ensures Map(Flat(s, f), g) == Flat(s, h)
  {
    if s != [] {
      MapFlat(s[..|s| - 1], f, g, h);
      MapAppend(Flat(s[..|s| - 1], f), f(s[|s| - 1]), g);
    }
  }

  // ---------------------------------------------------------------- ORDER BY

  function Insert<T>(x: T, s: seq<T>, key: T -> int): seq<T>
  {
    if s == [] || key(s[|s| - 1]) <= key(x) then s + [x]
    else Insert(x, s[..|s| - 1], key) + [s[|s| - 1]]
  }

  /** ORDER BY key ASC. */
  function SortBy<T>(s: seq<T>, key: T -> int): (r: seq<T>)
  {
    if s == [] then [] else Insert(s[|s| - 1], SortBy(s[..|s| - 1], key), key)
  }

  ghost predicate Ascending<T>(s: seq<T>, key: T -> int)
  {
    forall i, j :: 0 <= i < j < |s| ==> key(s[i]) <= key(s[j])
  }

  lemma {:induction false} InsertKeepsRows<T>(x: T, s: seq<T>, key: T -> int)
    ensures multiset(Insert(x, s, key)) == multiset(s) + multiset{x}
  {
    if !(s == [] || key(s[|s| - 1]) <= key(x)) {
      InsertKeepsRows(x, s[..|s| - 1], key);
      assert s == s[..|s| - 1] + [s[|s| - 1]];
    }
  }

  lemma {:induction false} InsertKeepsOrder<T>(x: T, s: seq<T>, key: T -> int, bound: int)
    requires Ascending(s, key) && key(x) <= bound && (s == [] || key(s[|s| - 1]) <= bound)
    ensures Ascending(Insert(x, s, key), key)
    ensures forall i :: 0 <= i < |Insert(x, s, key)| ==> key(Insert(x, s, key)[i]) <= bound
  {
    if !(s == [] || key(s[|s| - 1]) <= key(x)) {
      InsertKeepsOrder(x, s[..|s| - 1], key, key(s[|s| - 1]));
    }
  }

  lemma InsertAscending<T>(x: T, s: seq<T>, key: T -> int)
    requires Ascending(s, key)
    ensures Ascending(Insert(x, s, key), key)
  {
    InsertKeepsOrder(x, s, key, if s == [] || key(s[|s| - 1]) < key(x) then key(x) else key(s[|s| - 1]));
  }

  /** ORDER BY returns the selected rows, each as often as it was selected, in ascending order. */
  lemma {:induction false} SortByKeeps<T>(s: seq<T>, key: T -> int)
    ensures multiset(SortBy(s, key)) == multiset(s) && Ascending(SortBy(s, key), key)
  {
    if s != [] {
      var init, x := s[..|s| - 1], s[|s| - 1];
      assert SortBy(s, key) == Insert(x, SortBy(init, key), key) && s == init + [x];
      hide *;
      SortByKeeps(init, key);
      InsertKeepsRows(x, SortBy(init, key), key);
      InsertAscending(x, SortBy(init, key), key);
    }
  }

  // ---------------------------------------------------------------- joined strings

  /** A string cut at its first separator. */
  lemma SplitAtFirst(sep: char, a: string, x: string, b: string, y: string)
    requires sep !in a && sep !in b && a + ([sep] + x) == b + ([sep] + y)
    ensures a == b && x == y
  {
    var joined := a + ([sep] + x);
    assert forall i :: 0 <= i < |a| ==> joined[i] == a[i] && a[i] in a;
    assert forall i :: 0 <= i < |b| ==> joined[i] == b[i] && b[i] in b;
    assert joined[|a|] == sep && joined[|b|] == sep;
    assert a == joined[..|a|] && b == joined[..|b|];
    assert x == joined[|a| + 1..] && y == joined[|b| + 1..];
  }

  /** A string cut at its last separator. */
  lemma SplitAtLast(sep: char, a: string, x: string, b: string, y: string)
    requires sep !in x && sep !in y && a + ([sep] + x) == b + ([sep] + y)
    ensures a == b && x == y
  {
    var joined := a + ([sep] + x);
    LastSeparator(sep, a, x, joined);
    LastSeparator(sep, b, y, joined);
    assert |a| == |b|;
  }

  lemma LastSeparator(sep: char, a: string, x: string, joined: string)
    requires joined == a + ([sep] + x) && sep !in x
    ensures |a| < |joined| && joined[|a|] == sep && a == joined[..|a|] && x == joined[|a| + 1..]
    ensures forall i :: |a| < i < |joined| ==> joined[i] != sep
  {
    forall i | |a| < i < |joined| ensures joined[i] != sep {
      assert joined[i] == x[i - |a| - 1];
    }
  }
}
