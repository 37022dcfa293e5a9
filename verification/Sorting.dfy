/**
 `sort_by_key`, as a stable insertion sort, and the fact that distinct keys leave only one sorted
 arrangement.
 */
module Sorting {

  predicate Sorted<T>(key: T -> nat, s: seq<T>) {
    forall i, j :: 0 <= i < j < |s| ==> key(s[i]) <= key(s[j])
  }

  /** Inserting before the first element that is not smaller keeps equal keys in their order. */
  function Insert<T(==,!new)>(key: T -> nat, e: T, s: seq<T>): (r: seq<T>)
    ensures multiset(r) == multiset{e} + multiset(s) && |r| == |s| + 1
    ensures forall x :: x in r <==> x == e || x in s
  {
    if s == [] || key(e) <= key(s[0]) then [e] + s
    else
      assert s == [s[0]] + s[1..];
      [s[0]] + Insert(key, e, s[1..])
  }

  lemma ConsSorted<T>(key: T -> nat, e: T, s: seq<T>)
    requires Sorted(key, s) && forall x :: x in s ==> key(e) <= key(x)
    ensures Sorted(key, [e] + s)
  {
    var r := [e] + s;
    forall i, j | 0 <= i < j < |r| ensures key(r[i]) <= key(r[j]) {
      assert r[j] == s[j - 1] && (i > 0 ==> r[i] == s[i - 1]);
    }
  }

  lemma SortedHead<T>(key: T -> nat, s: seq<T>)
    requires Sorted(key, s) && s != []
    ensures Sorted(key, s[1..]) && forall x :: x in s ==> key(s[0]) <= key(x)
  {
  }

  lemma {:induction false} InsertSorted<T(!new)>(key: T -> nat, e: T, s: seq<T>)
    requires Sorted(key, s)
    ensures Sorted(key, Insert(key, e, s))
  {
    if s == [] {
      assert Insert(key, e, s) == [e];
    } else {
      hide Sorted;
      SortedHead(key, s);
      if key(e) <= key(s[0]) {
        ConsSorted(key, e, s);
      } else {
        InsertSorted(key, e, s[1..]);
        ConsSorted(key, s[0], Insert(key, e, s[1..]));
      }
    }
  }

  function Sort<T(==,!new)>(key: T -> nat, s: seq<T>): (r: seq<T>)
    ensures Sorted(key, r) && multiset(r) == multiset(s) && |r| == |s|
    ensures forall x :: x in r <==> x in s
  {
    if s == [] then [] else
      assert s == [s[0]] + s[1..];
      InsertSorted(key, s[0], Sort(key, s[1..]));
      Insert(key, s[0], Sort(key, s[1..]))
  }

  ghost predicate KeysDistinct<T>(key: T -> nat, s: seq<T>) {
    forall x, y :: x in s && y in s && key(x) == key(y) ==> x == y
  }

  lemma HeadsAgree<T>(key: T -> nat, a: seq<T>, b: seq<T>)
    requires Sorted(key, a) && Sorted(key, b) && multiset(a) == multiset(b) && KeysDistinct(key, a) && a != [] && b != []
    ensures a[0] == b[0]
  {
    assert a[0] in multiset(b) && b[0] in multiset(a);
    var i :| 0 <= i < |b| && b[i] == a[0];
    var j :| 0 <= j < |a| && a[j] == b[0];
    assert key(a[0]) <= key(a[j]) && key(b[0]) <= key(b[i]);
  }

  lemma TailMultiset<T>(a: seq<T>)
    requires a != []
    ensures multiset(a[1..]) == multiset(a) - multiset{a[0]}
  {
    assert a == [a[0]] + a[1..];
  }

  lemma TailSorted<T>(key: T -> nat, a: seq<T>)
    requires Sorted(key, a) && KeysDistinct(key, a) && a != []
    ensures Sorted(key, a[1..]) && KeysDistinct(key, a[1..])
  {
  }

  lemma SameElementsDistinct<T>(key: T -> nat, a: seq<T>, b: seq<T>)
    requires multiset(a) == multiset(b) && KeysDistinct(key, a)
    ensures KeysDistinct(key, b)
  {
    forall x | x in b ensures x in a { assert x in multiset(a); }
  }

  lemma SameLength<T>(a: seq<T>, b: seq<T>)
    requires multiset(a) == multiset(b)
    ensures |a| == |b|
  {
    assert |multiset(a)| == |a| && |multiset(b)| == |b|;
  }

  lemma SamePieces<T>(a: seq<T>, b: seq<T>)
    requires a != [] && b != [] && a[0] == b[0] && a[1..] == b[1..]
    ensures a == b
  {
    assert a == [a[0]] + a[1..] && b == [b[0]] + b[1..];
  }

  /** Distinct keys leave only one sorted arrangement. */
  lemma {:induction false} SortedIsUnique<T>(key: T -> nat, a: seq<T>, b: seq<T>)
    requires Sorted(key, a) && Sorted(key, b) && multiset(a) == multiset(b) && KeysDistinct(key, a)
    ensures a == b
    decreases |a|
  {
    SameLength(a, b);
    if a != [] {
      hide Sorted, KeysDistinct;
      HeadsAgree(key, a, b);
      SameElementsDistinct(key, a, b);
      TailMultiset(a);
      TailMultiset(b);
      TailSorted(key, a);
      TailSorted(key, b);
      SortedIsUnique(key, a[1..], b[1..]);
      SamePieces(a, b);
    }
  }

  /** One value per element. */
  function Keys<T, U>(key: T -> U, s: seq<T>): (r: seq<U>)
    ensures |r| == |s| && forall i :: 0 <= i < |s| ==> r[i] == key(s[i])
  {
    seq(|s|, i requires 0 <= i < |s| => key(s[i]))
  }

  lemma RemoveOne<T, U>(key: T -> U, s: seq<T>, j: nat)
    requires j < |s|
    ensures multiset(s[..j] + s[j + 1..]) == multiset(s) - multiset{s[j]}
    ensures multiset(Keys(key, s)) == multiset(Keys(key, s[..j] + s[j + 1..])) + multiset{key(s[j])}
  {
    var rest := s[..j] + s[j + 1..];
    assert s == s[..j] + [s[j]] + s[j + 1..];
    var k, kr := Keys(key, s), Keys(key, rest);
    assert k == k[..j] + [key(s[j])] + k[j + 1..];
    assert kr == k[..j] + k[j + 1..];
  }

  /** Rearranging a sequence rearranges its keys. */
  lemma {:induction false} SameElementsSameKeys<T, U>(key: T -> U, a: seq<T>, b: seq<T>)
    requires multiset(a) == multiset(b)
    ensures multiset(Keys(key, a)) == multiset(Keys(key, b))
    decreases |a|
  {
    hide Keys;
    SameLength(a, b);
    if a != [] {
      assert a[0] in multiset(b);
      var j :| 0 <= j < |b| && b[j] == a[0];
      RemoveOne(key, a, 0);
      RemoveOne(key, b, j);
      SameElementsSameKeys(key, a[..0] + a[1..], b[..j] + b[j + 1..]);
    } else {
      assert a == b;
    }
  }

  /** 0, 1, … n - 1. */
  function Iota(n: nat): (r: seq<nat>)
    ensures |r| == n && forall i :: 0 <= i < n ==> r[i] == i
  {
    seq(n, i requires 0 <= i < n => i)
  }

  function Itself(n: nat): nat { n }

  lemma SortedKeys<T>(key: T -> nat, s: seq<T>)
    requires Sorted(key, s)
    ensures Sorted(Itself, Keys(key, s))
  {
    var k := Keys(key, s);
    forall i, j | 0 <= i < j < |k| ensures Itself(k[i]) <= Itself(k[j]) {
      assert key(s[i]) <= key(s[j]);
    }
  }

  lemma SortedIota(r: seq<nat>)
    requires Sorted(Itself, r) && multiset(r) == multiset(Iota(|r|))
    ensures r == Iota(|r|)
  {
    hide Itself;
    assert Sorted(Itself, Iota(|r|)) by { IotaSorted(|r|); }
    assert KeysDistinct(Itself, r) by { NatsDistinct(r); }
    SortedIsUnique(Itself, r, Iota(|r|));
  }

  lemma IotaSorted(n: nat)
    ensures Sorted(Itself, Iota(n))
  {
  }

  lemma NatsDistinct(r: seq<nat>)
    ensures KeysDistinct(Itself, r)
  {
  }

  predicate Numbered<T>(key: T -> nat, s: seq<T>) {
    forall i :: 0 <= i < |s| ==> key(s[i]) == i
  }

  lemma NumberedKeys<T>(key: T -> nat, s: seq<T>)
    ensures Numbered(key, s) <==> Keys(key, s) == Iota(|s|)
  {
    if Keys(key, s) == Iota(|s|) {
      forall i | 0 <= i < |s| ensures key(s[i]) == i { assert Keys(key, s)[i] == Iota(|s|)[i]; }
    }
  }

  /** Sorted by key, the keys are 0 to n - 1 exactly when the keys were a permutation of those. */
  lemma SortedKeysAreIota<T(!new)>(key: T -> nat, s: seq<T>)
    ensures Numbered(key, Sort(key, s)) <==> multiset(Keys(key, s)) == multiset(Iota(|s|))
  {
    hide Sorted, Sort, Numbered, Keys, Iota, Itself;
    var t := Sort(key, s);
    SameElementsSameKeys(key, t, s);
    NumberedKeys(key, t);
    SortedKeys(key, t);
    if multiset(Keys(key, s)) == multiset(Iota(|s|)) { SortedIota(Keys(key, t)); }
  }

  lemma IotaKeysDistinct<T(!new)>(key: T -> nat, s: seq<T>)
    requires multiset(Keys(key, s)) == multiset(Iota(|s|))
    ensures KeysDistinct(key, s)
  {
    SortedKeysAreIota(key, s);
    NumberedDistinct(key, Sort(key, s));
    SameElementsDistinct(key, Sort(key, s), s);
  }

  lemma NumberedDistinct<T>(key: T -> nat, s: seq<T>)
    requires Numbered(key, s)
    ensures KeysDistinct(key, s)
  {
    forall x, y | x in s && y in s && key(x) == key(y) ensures x == y {
      var i :| 0 <= i < |s| && s[i] == x;
      var j :| 0 <= j < |s| && s[j] == y;
      assert key(s[i]) == i && key(s[j]) == j;
    }
  }

  // ── Without repetition ─────────────────────────────────────────────────────

  predicate Unrepeated<T(==)>(s: seq<T>) {
    forall i, j :: 0 <= i < j < |s| ==> s[i] != s[j]
  }

  function Elements<T(==)>(s: seq<T>): set<T> { set x | x in s }

  lemma OneMoreElement<T>(front: seq<T>, last: T)
    ensures Elements(front + [last]) == Elements(front) + {last}
    ensures Unrepeated(front + [last]) <==> Unrepeated(front) && last !in front
    ensures last in Elements(front) <==> last in front
  {
    var s, n := front + [last], |front|;
    assert forall i :: 0 <= i < n ==> s[i] == front[i];
    assert s[n] == last;
    if Unrepeated(s) {
      forall i, j | 0 <= i < j < n ensures front[i] != front[j] { assert s[i] != s[j]; }
    }
  }

  /** No element occurs twice exactly when there are as many elements as places. */
  lemma {:induction false} CountElements<T>(s: seq<T>)
    ensures |Elements(s)| <= |s|
    ensures Unrepeated(s) <==> |Elements(s)| == |s|
  {
    if s != [] {
      var n := |s| - 1;
      CountElements(s[..n]);
      OneMoreElement(s[..n], s[n]);
      assert s[..n] + [s[n]] == s;
    }
  }

  lemma {:induction false} CountOnce<T>(s: seq<T>, x: T)
    requires Unrepeated(s)
    ensures multiset(s)[x] == if x in s then 1 else 0
  {
    if s != [] {
      var n := |s| - 1;
      CountOnce(s[..n], x);
      assert s == s[..n] + [s[n]];
    }
  }

  /** Two sequences without repetition and with the same elements are arrangements of one another. */
  lemma SameElementsArranged<T>(a: seq<T>, b: seq<T>)
    requires Unrepeated(a) && Unrepeated(b) && Elements(a) == Elements(b)
    ensures multiset(a) == multiset(b)
  {
    forall x ensures multiset(a)[x] == multiset(b)[x] {
      CountOnce(a, x);
      CountOnce(b, x);
      assert x in a <==> x in Elements(a);
      assert x in b <==> x in Elements(b);
    }
  }
}
