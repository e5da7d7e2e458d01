/** Filtering and stable sorting of sequences. */
module Sequences {

  /** The elements that satisfy p, in order. */
  function Keep<T(!new)>(p: T -> bool, s: seq<T>): (r: seq<T>)
    ensures forall x :: x in r <==> x in s && p(x)
  {
    if s == [] then [] else (if p(s[0]) then [s[0]] else []) + Keep(p, s[1..])
  }

  lemma {:induction false} KeepSnoc<T(!new)>(p: T -> bool, s: seq<T>, x: T)
    ensures Keep(p, s + [x]) == Keep(p, s) + if p(x) then [x] else []
  {
    if s == [] {
      assert s + [x] == [x] && [x][1..] == [];
    } else {
      assert (s + [x])[1..] == s[1..] + [x];
      KeepSnoc(p, s[1..], x);
    }
  }

  lemma KeepLast<T(!new)>(p: T -> bool, s: seq<T>)
    requires s != []
    ensures Keep(p, s) == Keep(p, s[..|s| - 1]) + if p(s[|s| - 1]) then [s[|s| - 1]] else []
  {
    assert s == s[..|s| - 1] + [s[|s| - 1]];
    KeepSnoc(p, s[..|s| - 1], s[|s| - 1]);
  }

  /** Where a kept element came from. */
  lemma {:induction false} KeepFrom<T(!new)>(p: T -> bool, s: seq<T>, k: nat) returns (m: nat)
    requires k < |Keep(p, s)|
    ensures m < |s| && s[m] == Keep(p, s)[k]
  {
    if p(s[0]) && k == 0 {
      m := 0;
    } else {
      m := KeepFrom(p, s[1..], if p(s[0]) then k - 1 else k);
      m := m + 1;
    }
  }

  function InsertBy<T>(key: T -> int, x: T, s: seq<T>): seq<T> {
    if s == [] || key(x) <= key(s[0]) then [x] + s else [s[0]] + InsertBy(key, x, s[1..])
  }

  /** The elements by ascending key, those of equal key in the order given. */
  function SortBy<T>(key: T -> int, s: seq<T>): seq<T> {
    if s == [] then [] else InsertBy(key, s[0], SortBy(key, s[1..]))
  }

  ghost predicate Ascending<T>(key: T -> int, s: seq<T>) {
    forall i, k :: 0 <= i < k < |s| ==> key(s[i]) <= key(s[k])
  }

  lemma {:induction false} InsertPermutes<T>(key: T -> int, x: T, s: seq<T>)
    ensures multiset(InsertBy(key, x, s)) == multiset(s) + multiset{x}
  {
    if s != [] && key(s[0]) < key(x) {
      InsertPermutes(key, x, s[1..]);
      assert s == [s[0]] + s[1..];
    }
  }

  lemma {:induction false} InsertAscends<T>(key: T -> int, x: T, s: seq<T>, bound: int)
    requires Ascending(key, s) && bound <= key(x) && forall k :: 0 <= k < |s| ==> bound <= key(s[k])
    ensures Ascending(key, InsertBy(key, x, s))
    ensures forall k :: 0 <= k < |InsertBy(key, x, s)| ==> bound <= key(InsertBy(key, x, s)[k])
  {
    if s != [] && key(s[0]) < key(x) {
      InsertAscends(key, x, s[1..], key(s[0]));
    }
  }

  lemma {:induction false} SortPermutes<T>(key: T -> int, s: seq<T>)
    ensures multiset(SortBy(key, s)) == multiset(s)
  {
    if s != [] {
      SortPermutes(key, s[1..]);
      InsertPermutes(key, s[0], SortBy(key, s[1..]));
      assert s == [s[0]] + s[1..];
    }
  }

  lemma {:induction false} SortAscends<T>(key: T -> int, s: seq<T>)
    ensures Ascending(key, SortBy(key, s))
  {
    if s != [] {
      SortAscends(key, s[1..]);
      var rest := SortBy(key, s[1..]);
      InsertAscends(key, s[0], rest, if rest == [] || key(s[0]) < key(rest[0]) then key(s[0]) else key(rest[0]));
    }
  }

  lemma Sorts<T>(key: T -> int, s: seq<T>)
    ensures Ascending(key, SortBy(key, s)) && multiset(SortBy(key, s)) == multiset(s)
  {
    SortPermutes(key, s);
    SortAscends(key, s);
  }

  lemma KeepCons<T(!new)>(p: T -> bool, x: T, s: seq<T>)
    ensures Keep(p, [x] + s) == if p(x) then [x] + Keep(p, s) else Keep(p, s)
  {
    assert ([x] + s)[1..] == s;
  }

  lemma InsertCons<T>(key: T -> int, x: T, y: T, s: seq<T>)
    ensures InsertBy(key, x, [y] + s) == if key(x) <= key(y) then [x] + ([y] + s) else [y] + InsertBy(key, x, s)
  {
    assert ([y] + s)[1..] == s;
  }

  lemma {:induction false} KeepInsert<T(!new)>(p: T -> bool, key: T -> int, x: T, s: seq<T>)
    requires Ascending(key, s)
    ensures Keep(p, InsertBy(key, x, s)) == if p(x) then InsertBy(key, x, Keep(p, s)) else Keep(p, s)
  {
    if s == [] || key(x) <= key(s[0]) {
      KeepCons(p, x, s);
      assert Keep(p, s) != [] ==> Keep(p, s)[0] in s;
    } else {
      var y, rest := s[0], s[1..];
      assert s == [y] + rest;
      KeepInsert(p, key, x, rest);
      KeepCons(p, y, rest);
      KeepCons(p, y, InsertBy(key, x, rest));
      InsertCons(key, x, y, Keep(p, rest));
    }
  }

  /** Sorting a part of the elements is taking that part of the sorted elements. */
  lemma {:induction false} KeepSorted<T(!new)>(p: T -> bool, key: T -> int, s: seq<T>)
    ensures Keep(p, SortBy(key, s)) == SortBy(key, Keep(p, s))
  {
    if s != [] {
      KeepSorted(p, key, s[1..]);
      Sorts(key, s[1..]);
      KeepInsert(p, key, s[0], SortBy(key, s[1..]));
      if p(s[0]) {
        assert ([s[0]] + Keep(p, s[1..]))[1..] == Keep(p, s[1..]);
      } else {
        assert [] + Keep(p, s[1..]) == Keep(p, s[1..]);
      }
    }
  }

  lemma {:induction false} EqualsUnmoved<T>(key: T -> int, s: seq<T>, value: int)
    requires forall k :: 0 <= k < |s| ==> key(s[k]) == value
    ensures SortBy(key, s) == s
  {
    if s != [] {
      EqualsUnmoved(key, s[1..], value);
    }
  }

  /** x stands before y. */
  ghost predicate Precedes<T>(s: seq<T>, x: T, y: T) {
    exists a, b :: 0 <= a < b < |s| && s[a] == x && s[b] == y
  }

  lemma PrecedesIn<T>(s: seq<T>, x: T, y: T, a: nat, b: nat)
    requires a < b < |s| && s[a] == x && s[b] == y
    ensures Precedes(s, x, y)
  {
  }

  lemma PrecedesEarlier<T>(s: seq<T>, n: nat, x: T, y: T)
    requires n <= |s| && Precedes(s[..n], x, y)
    ensures Precedes(s, x, y)
  {
    var a, b :| 0 <= a < b < |s[..n]| && s[..n][a] == x && s[..n][b] == y;
    PrecedesIn(s, x, y, a, b);
  }

  lemma PrecedesLater<T>(s: seq<T>, x: T, y: T)
    requires s != [] && Precedes(s[1..], x, y)
    ensures Precedes(s, x, y)
  {
    var a, b :| 0 <= a < b < |s[1..]| && s[1..][a] == x && s[1..][b] == y;
    PrecedesIn(s, x, y, a + 1, b + 1);
  }

  ghost predicate NoRepeats<T>(s: seq<T>) {
    forall i, k :: 0 <= i < k < |s| ==> s[i] != s[k]
  }

  lemma NoRepeatsDiffer<T>(s: seq<T>, x: T, y: T)
    requires NoRepeats(s) && Precedes(s, x, y)
    ensures x != y
  {
  }

  /** Where an element is inserted: before everything of its key or more. */
  lemma {:induction false} InsertedAt<T>(key: T -> int, x: T, s: seq<T>) returns (p: nat)
    requires Ascending(key, s)
    ensures p <= |s| && InsertBy(key, x, s) == s[..p] + [x] + s[p..]
    ensures (forall i :: 0 <= i < p ==> key(s[i]) < key(x)) && forall i :: p <= i < |s| ==> key(x) <= key(s[i])
  {
    if s == [] || key(x) <= key(s[0]) {
      p := 0;
    } else {
      p := InsertedAt(key, x, s[1..]);
      assert s[1..][..p] == s[1..p + 1] && s[1..][p..] == s[p + 1..];
      p := p + 1;
      assert s[..p] == [s[0]] + s[1..p];
    }
  }

  lemma InsertedNoRepeats<T>(s: seq<T>, x: T, p: nat)
    requires NoRepeats(s) && x !in s && p <= |s|
    ensures NoRepeats(s[..p] + [x] + s[p..])
  {
    var r := s[..p] + [x] + s[p..];
    forall i, k | 0 <= i < k < |r| ensures r[i] != r[k] {
      if i != p && k != p {
        assert r[i] == s[if i < p then i else i - 1] && r[k] == s[if k < p then k else k - 1];
      } else {
        assert r[if i == p then k else i] in s;
      }
    }
  }

  lemma {:induction false} SortKeepsNoRepeats<T>(key: T -> int, s: seq<T>)
    requires NoRepeats(s)
    ensures NoRepeats(SortBy(key, s))
  {
    if s != [] {
      var rest := SortBy(key, s[1..]);
      SortKeepsNoRepeats(key, s[1..]);
      Sorts(key, s[1..]);
      assert s[0] !in s[1..];
      assert s[0] !in multiset(rest);
      var p := InsertedAt(key, s[0], rest);
      InsertedNoRepeats(rest, s[0], p);
    }
  }

  /** An element taken out of the middle leaves the others where they were. */
  lemma AroundInserted<T>(rest: seq<T>, x: T, p: nat, i: nat)
    requires p <= |rest| && i <= |rest| && i != p
    ensures (rest[..p] + [x] + rest[p..])[i] == rest[if i < p then i else i - 1]
  {
  }

  lemma SortedRestIn<T>(key: T -> int, s: seq<T>, y: T)
    requires s != [] && y in SortBy(key, s[1..])
    ensures Precedes(s, s[0], y)
  {
    Sorts(key, s[1..]);
    assert y in multiset(SortBy(key, s[1..]));
    assert y in s[1..];
    var b :| 0 <= b < |s[1..]| && s[1..][b] == y;
    PrecedesIn(s, s[0], y, 0, b + 1);
  }

  /** Elements of equal key keep their order. */
  lemma {:induction false} SortKeepsOrder<T>(key: T -> int, s: seq<T>, i: nat, k: nat)
    requires i < k < |SortBy(key, s)| && key(SortBy(key, s)[i]) == key(SortBy(key, s)[k])
    ensures Precedes(s, SortBy(key, s)[i], SortBy(key, s)[k])
  {
    if s != [] {
      var rest := SortBy(key, s[1..]);
      Sorts(key, s[1..]);
      var p := InsertedAt(key, s[0], rest);
      if i == p {
        AroundInserted(rest, s[0], p, k);
        SortedRestIn(key, s, rest[k - 1]);
      } else {
        AroundInserted(rest, s[0], p, i);
        if k != p {
          AroundInserted(rest, s[0], p, k);
          SortKeepsOrder(key, s[1..], if i < p then i else i - 1, if k < p then k else k - 1);
          PrecedesLater(s, SortBy(key, s)[i], SortBy(key, s)[k]);
        }
      }
    }
  }
}
