/** Python's sorted(xs, key=...): a stable sort on the keys Python can compare
    with each other (numbers with numbers by value, strings with strings in code
    point order). */
module Sorting {
  import opened Values

  datatype Key = Num(x: real) | Txt(s: string)

  /** Python's `a < b` on str: code point order, a proper prefix first. */
  predicate LexLess(a: string, b: string)
  {
    if a == [] then b != []
    else if b == [] then false
    else a[0] < b[0] || (a[0] == b[0] && LexLess(a[1..], b[1..]))
  }

  /** The order sorted() uses. Numbers before strings only makes the order total;
      sorted() never compares the two kinds (it raises instead, see Orderable). */
  predicate Less(a: Key, b: Key)
  {
    match a
    case Num(x) => (match b case Num(y) => x < y case Txt(_) => true)
    case Txt(s) => (match b case Num(_) => false case Txt(t) => LexLess(s, t))
  }

  /** The key Python compares for a value; None for values the model does not order. */
  function KeyOf(v: Value): (r: Option<Key>)
    ensures IsNumber(v) <==> r.Some? && r.value.Num?
    ensures v.Str? <==> r.Some? && r.value.Txt?
  {
    match v
    case Str(s) => Some(Txt(s))
    case Bool(_) => Some(Num(AsReal(v)))
    case Int(_) => Some(Num(AsReal(v)))
    case Float(_) => Some(Num(AsReal(v)))
    case Null => None
    case List(_) => None
    case Dict(_, _) => None
  }

  /** The key of v, or 0 where the model has none (only reachable for a one-element list,
      which sorted() never compares). */
  function KeyOrZero(v: Value): Key
  {
    match KeyOf(v)
    case Some(k) => k
    case None => Num(0.0)
  }

  /** Keys sorted() orders without a TypeError: with two or more elements all
      keys are numbers, or all are strings. Python also orders keys that are
      all lists, element by element; the model does not. */
  predicate Orderable(keys: seq<Value>)
  {
    || |keys| <= 1
    || (forall i :: 0 <= i < |keys| ==> IsNumber(keys[i]))
    || (forall i :: 0 <= i < |keys| ==> keys[i].Str?)
  }

  // ---------------------------------------------------------------- order lemmas

  lemma {:induction false} LexLessIrreflexive(a: string)
    ensures !LexLess(a, a)
  {
    if a != [] {
      LexLessIrreflexive(a[1..]);
    }
  }

  lemma {:induction false} LexLessTransitive(a: string, b: string, c: string)
    requires LexLess(a, b) && LexLess(b, c)
    ensures LexLess(a, c)
  {
    if a != [] && b != [] && c != [] && a[0] == b[0] == c[0] {
      LexLessTransitive(a[1..], b[1..], c[1..]);
    }
  }

  lemma {:induction false} LexLessTotal(a: string, b: string)
    requires a != b
    ensures LexLess(a, b) || LexLess(b, a)
  {
    if a != [] && b != [] && a[0] == b[0] {
      assert a == [a[0]] + a[1..] && b == [b[0]] + b[1..];
      LexLessTotal(a[1..], b[1..]);
    }
  }

  lemma LessIrreflexive(a: Key)
    ensures !Less(a, a)
  {
    if a.Txt? {
      LexLessIrreflexive(a.s);
    }
  }

  lemma LessTransitive(a: Key, b: Key, c: Key)
    requires Less(a, b) && Less(b, c)
    ensures Less(a, c)
  {
    if a.Txt? && b.Txt? && c.Txt? {
      LexLessTransitive(a.s, b.s, c.s);
    }
  }

  lemma LessTotal(a: Key, b: Key)
    requires a != b
    ensures Less(a, b) || Less(b, a)
  {
    if a.Txt? && b.Txt? {
      LexLessTotal(a.s, b.s);
    }
  }

  /** "Not greater" is transitive. */
  lemma NotLessTransitive(a: Key, b: Key, c: Key)
    requires !Less(b, a) && !Less(c, b)
    ensures !Less(c, a)
  {
    if Less(c, a) {
      if a == b {
      } else {
        LessTotal(a, b);
        LessTransitive(c, a, b);
      }
    }
  }

  // ---------------------------------------------------------------- the sort

  predicate SortedBy<T>(s: seq<T>, key: T -> Key)
  {
    forall i, j :: 0 <= i < j < |s| ==> !Less(key(s[j]), key(s[i]))
  }

  /** The elements of s whose key is k, in their order in s. */
  function Select<T>(s: seq<T>, key: T -> Key, k: Key): seq<T>
  {
    if s == [] then []
    else (if key(s[0]) == k then [s[0]] else []) + Select(s[1..], key, k)
  }

  /** Places x before the first element whose key is not smaller than x's. */
  function Insert<T>(x: T, s: seq<T>, key: T -> Key): seq<T>
  {
    if s == [] || !Less(key(s[0]), key(x)) then [x] + s
    else [s[0]] + Insert(x, s[1..], key)
  }

  /** sorted(s, key=key) */
  function SortBy<T>(s: seq<T>, key: T -> Key): (r: seq<T>)
    ensures |r| == |s|
  {
    if s == [] then [] else
      InsertPermutation(s[0], SortBy(s[1..], key), key);
      Insert(s[0], SortBy(s[1..], key), key)
  }

  lemma {:induction false} InsertPermutation<T>(x: T, s: seq<T>, key: T -> Key)
    ensures multiset(Insert(x, s, key)) == multiset(s) + multiset{x}
    ensures |Insert(x, s, key)| == |s| + 1
  {
    if s != [] && Less(key(s[0]), key(x)) {
      InsertPermutation(x, s[1..], key);
      assert s == [s[0]] + s[1..];
    }
  }

  lemma {:induction false} InsertSorted<T>(x: T, s: seq<T>, key: T -> Key)
    requires SortedBy(s, key)
    ensures SortedBy(Insert(x, s, key), key)
  {
    var r := Insert(x, s, key);
    if s == [] {
    } else if !Less(key(s[0]), key(x)) {
      forall i, j | 0 <= i < j < |r| ensures !Less(key(r[j]), key(r[i])) {
        if i == 0 {
          assert r[j] == s[j - 1];
          if j > 1 {
            NotLessTransitive(key(x), key(s[0]), key(r[j]));
          } else {
            LessIrreflexive(key(s[0]));
          }
        }
      }
    } else {
      var t := Insert(x, s[1..], key);
      InsertSorted(x, s[1..], key);
      InsertPermutation(x, s[1..], key);
      forall j | 0 <= j < |t| ensures !Less(key(t[j]), key(s[0])) {
        assert t[j] in multiset(t);
        if t[j] == x {
          LessIrreflexive(key(s[0]));
          if Less(key(x), key(s[0])) {
            LessTransitive(key(x), key(s[0]), key(x));
            LessIrreflexive(key(x));
          }
        } else {
          assert t[j] in multiset(s[1..]);
          var m :| 0 <= m < |s[1..]| && s[1..][m] == t[j];
          assert s[m + 1] == t[j];
        }
      }
      assert r == [s[0]] + t;
    }
  }

  lemma SelectCons<T>(y: T, t: seq<T>, key: T -> Key, k: Key)
    ensures Select([y] + t, key, k) == (if key(y) == k then [y] else []) + Select(t, key, k)
  {
    assert ([y] + t)[0] == y;
    assert ([y] + t)[1..] == t;
  }

  lemma {:induction false} InsertSelect<T>(x: T, s: seq<T>, key: T -> Key, k: Key)
    ensures Select(Insert(x, s, key), key, k)
         == (if key(x) == k then [x] else []) + Select(s, key, k)
  {
    if s == [] || !Less(key(s[0]), key(x)) {
      SelectCons(x, s, key, k);
    } else {
      var rest := Insert(x, s[1..], key);
      InsertSelect(x, s[1..], key, k);
      SelectCons(s[0], rest, key, k);
      SelectCons(s[0], s[1..], key, k);
      assert [s[0]] + s[1..] == s;
      if key(x) == k {
        LessIrreflexive(key(x));
        assert key(s[0]) != k;
      }
    }
  }

  /** The sort puts the keys in ascending order. */
  lemma {:induction false} SortBySorted<T>(s: seq<T>, key: T -> Key)
    ensures SortedBy(SortBy(s, key), key)
  {
    if s != [] {
      SortBySorted(s[1..], key);
      InsertSorted(s[0], SortBy(s[1..], key), key);
    }
  }

  /** The sort is a permutation of its input. */
  lemma {:induction false} SortByPermutation<T>(s: seq<T>, key: T -> Key)
    ensures multiset(SortBy(s, key)) == multiset(s)
  {
    if s != [] {
      SortByPermutation(s[1..], key);
      InsertPermutation(s[0], SortBy(s[1..], key), key);
      assert s == [s[0]] + s[1..];
    }
  }

  /** The sort is stable: the elements that share a key keep their relative order. */
  lemma {:induction false} SortByStable<T>(s: seq<T>, key: T -> Key, k: Key)
    ensures Select(SortBy(s, key), key, k) == Select(s, key, k)
  {
    if s != [] {
      SortByStable(s[1..], key, k);
      InsertSelect(s[0], SortBy(s[1..], key), key, k);
    }
  }

  /** sorted() in one statement: ascending, a permutation, and stable. */
  lemma SortBySpec<T>(s: seq<T>, key: T -> Key)
    ensures SortedBy(SortBy(s, key), key)
    ensures multiset(SortBy(s, key)) == multiset(s)
    ensures forall k :: Select(SortBy(s, key), key, k) == Select(s, key, k)
  {
    SortBySorted(s, key);
    SortByPermutation(s, key);
    forall k ensures Select(SortBy(s, key), key, k) == Select(s, key, k) {
      SortByStable(s, key, k);
    }
  }

  /** Dropping elements from a sorted list leaves it sorted. */
  lemma {:induction false} FilterSorted<T>(s: seq<T>, key: T -> Key, keep: T -> bool)
    requires SortedBy(s, key)
    ensures SortedBy(Filter(s, keep), key)
  {
    if s != [] {
      var init := s[..|s| - 1];
      assert SortedBy(init, key);
      FilterSorted(init, key, keep);
      var f := Filter(init, keep);
      if keep(s[|s| - 1]) {
        forall i | 0 <= i < |f| ensures !Less(key(s[|s| - 1]), key(f[i])) {
          FilterMember(init, keep, f[i]);
          var j :| 0 <= j < |init| && init[j] == f[i];
        }
      }
    }
  }

  /** Every element of the sorted list comes from the input. */
  lemma SortByElements<T>(s: seq<T>, key: T -> Key, i: int)
    requires 0 <= i < |s|
    ensures SortBy(s, key)[i] in s
  {
    SortByPermutation(s, key);
    assert SortBy(s, key)[i] in multiset(SortBy(s, key));
  }
}
