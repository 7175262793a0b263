/** The stable descending sort used for every ordering in the model:
    MongoDB `sort({createdAt: -1})`, the listing comparator "articles with
    questions first, then newest `pubDate` first", and the search order
    "newest `pubDate` first". JavaScript's `Array.prototype.sort` is stable,
    so ties keep their input order. */
module Sorting {

  /** A two-part sort key compared lexicographically. */
  datatype Key = Key(major: int, minor: int)

  /** `a` may come before `b` in a descending order. */
  predicate KeyGe(a: Key, b: Key) {
    a.major > b.major || (a.major == b.major && a.minor >= b.minor)
  }

  predicate SortedDesc<T>(s: seq<T>, key: T -> Key) {
    forall i, j :: 0 <= i < j < |s| ==> KeyGe(key(s[i]), key(s[j]))
  }

  /** Inserts `x` before the first element whose key it is not below, so
      `x` precedes the elements of equal key. */
  function Insert<T>(x: T, s: seq<T>, key: T -> Key): seq<T>
    decreases |s|
  {
    if s == [] then [x]
    else if KeyGe(key(x), key(s[0])) then [x] + s
    else [s[0]] + Insert(x, s[1..], key)
  }

  /** Insertion sort, descending and stable. */
  function SortDesc<T>(s: seq<T>, key: T -> Key): seq<T>
    decreases |s|
  {
    if s == [] then [] else Insert(s[0], SortDesc(s[1..], key), key)
  }

  lemma {:induction false} InsertMultiset<T>(x: T, s: seq<T>, key: T -> Key)
    ensures multiset(Insert(x, s, key)) == multiset(s) + multiset{x}
    decreases |s|
  {
    if s != [] {
      assert s == [s[0]] + s[1..];
      if !KeyGe(key(x), key(s[0])) {
        InsertMultiset(x, s[1..], key);
        assert Insert(x, s, key) == [s[0]] + Insert(x, s[1..], key);
      }
    }
  }

  /** A head no lower than every later element extends a sorted tail. */
  lemma ConsSorted<T>(h: T, t: seq<T>, key: T -> Key)
    requires SortedDesc(t, key)
    requires forall j :: 0 <= j < |t| ==> KeyGe(key(h), key(t[j]))
    ensures SortedDesc([h] + t, key)
  {
    var r := [h] + t;
    forall i, j | 0 <= i < j < |r| ensures KeyGe(key(r[i]), key(r[j])) {
      assert r[j] == t[j - 1];
      if i > 0 {
        assert r[i] == t[i - 1];
      }
    }
  }

  lemma {:induction false} InsertCorrect<T>(x: T, s: seq<T>, key: T -> Key)
    requires SortedDesc(s, key)
    ensures SortedDesc(Insert(x, s, key), key)
    ensures multiset(Insert(x, s, key)) == multiset(s) + multiset{x}
    decreases |s|
  {
    InsertMultiset(x, s, key);
    if s == [] {
      assert Insert(x, s, key) == [x];
    } else if KeyGe(key(x), key(s[0])) {
      assert Insert(x, s, key) == [x] + s;
      forall j | 0 <= j < |s| ensures KeyGe(key(x), key(s[j])) {
        if j > 0 {
          assert KeyGe(key(s[0]), key(s[j]));
        }
      }
      ConsSorted(x, s, key);
    } else {
      assert s == [s[0]] + s[1..];
      assert SortedDesc(s[1..], key);
      InsertCorrect(x, s[1..], key);
      var r := Insert(x, s[1..], key);
      assert Insert(x, s, key) == [s[0]] + r;
      forall j | 0 <= j < |r| ensures KeyGe(key(s[0]), key(r[j])) {
        assert r[j] in multiset(r);
        if r[j] != x {
          assert r[j] in multiset(s[1..]);
          var k :| 0 <= k < |s[1..]| && s[1..][k] == r[j];
          assert s[k + 1] == r[j];
        }
      }
      ConsSorted(s[0], r, key);
    }
  }

  /** The sort yields a descending permutation of its input. */
  lemma {:induction false} SortDescCorrect<T>(s: seq<T>, key: T -> Key)
    ensures SortedDesc(SortDesc(s, key), key)
    ensures multiset(SortDesc(s, key)) == multiset(s)
    ensures |SortDesc(s, key)| == |s|
    decreases |s|
  {
    if s != [] {
      SortDescCorrect(s[1..], key);
      InsertCorrect(s[0], SortDesc(s[1..], key), key);
      assert s == [s[0]] + s[1..];
      assert multiset(s) == multiset{s[0]} + multiset(s[1..]);
      assert |multiset(SortDesc(s, key))| == |multiset(s)|;
    }
  }

  /** An input that is already in order is left exactly as it is, ties included. */
  lemma {:induction false} SortDescOfSorted<T>(s: seq<T>, key: T -> Key)
    requires SortedDesc(s, key)
    ensures SortDesc(s, key) == s
    decreases |s|
  {
    if s != [] {
      assert SortedDesc(s[1..], key);
      SortDescOfSorted(s[1..], key);
      if |s| > 1 {
        assert KeyGe(key(s[0]), key(s[1..][0]));
      }
      assert s == [s[0]] + s[1..];
    }
  }

  /** The elements of `s` whose key is `k`, in their order in `s`. */
  function Tied<T>(s: seq<T>, key: T -> Key, k: Key): (r: seq<T>)
    ensures forall i :: 0 <= i < |r| ==> key(r[i]) == k
    decreases |s|
  {
    if s == [] then []
    else (if key(s[0]) == k then [s[0]] else []) + Tied(s[1..], key, k)
  }

  /** Inserting `x` places it before the elements of its own key and
      leaves their order, and that of every other key, alone. */
  lemma {:induction false} InsertTied<T>(x: T, s: seq<T>, key: T -> Key, k: Key)
    ensures Tied(Insert(x, s, key), key, k) == (if key(x) == k then [x] else []) + Tied(s, key, k)
    decreases |s|
  {
    if s == [] {
      assert Insert(x, s, key) == [x];
      assert [x][1..] == [];
    } else if KeyGe(key(x), key(s[0])) {
      assert Insert(x, s, key) == [x] + s;
      assert ([x] + s)[1..] == s;
    } else {
      var r := Insert(x, s[1..], key);
      assert Insert(x, s, key) == [s[0]] + r;
      assert ([s[0]] + r)[1..] == r;
      InsertTied(x, s[1..], key, k);
      assert key(s[0]) != key(x);
    }
  }

  /** The sort is stable: for every key, the elements carrying it come out
      in the order they went in. */
  lemma {:induction false} SortDescStable<T>(s: seq<T>, key: T -> Key, k: Key)
    ensures Tied(SortDesc(s, key), key, k) == Tied(s, key, k)
    decreases |s|
  {
    if s != [] {
      SortDescStable(s[1..], key, k);
      InsertTied(s[0], SortDesc(s[1..], key), key, k);
    }
  }
}
