/** `Array.prototype.sort` with a comparator, as the pipeline uses it.  Since ES2019
    that sort is stable: elements the comparator calls equal keep their order.  The
    sort is written here as an insertion sort over sequences, `le(a, b)` meaning
    "the comparator does not put `b` before `a`" (`compare(a, b) <= 0`). */
module Sorting {

  /** `le` is total and transitive on the elements of `s`. */
  ghost predicate PreorderOn<T>(s: seq<T>, le: (T, T) -> bool) {
    && (forall a, b :: a in s && b in s ==> le(a, b) || le(b, a))
    && (forall a, b, c :: a in s && b in s && c in s && le(a, b) && le(b, c) ==> le(a, c))
  }

  ghost predicate SortedBy<T>(s: seq<T>, le: (T, T) -> bool) {
    forall i, j :: 0 <= i < j < |s| ==> le(s[i], s[j])
  }

  /** `a` and `b` compare equal. */
  predicate Equivalent<T>(a: T, b: T, le: (T, T) -> bool) {
    le(a, b) && le(b, a)
  }

  /** Inserts `x` behind every element of `t` that may precede it. */
  function Insert<T>(t: seq<T>, x: T, le: (T, T) -> bool): (r: seq<T>)
    ensures |r| == |t| + 1
    ensures multiset(r) == multiset(t) + multiset{x}
  {
    if t == [] || le(t[|t| - 1], x) then t + [x]
    else
      assert t == t[..|t| - 1] + [t[|t| - 1]];
      Insert(t[..|t| - 1], x, le) + [t[|t| - 1]]
  }

  /** The stable sort of `s` under `le`. */
  function SortWith<T>(s: seq<T>, le: (T, T) -> bool): (r: seq<T>)
    ensures |r| == |s|
    ensures multiset(r) == multiset(s)
  {
    if s == [] then []
    else
      assert s == s[..|s| - 1] + [s[|s| - 1]];
      Insert(SortWith(s[..|s| - 1], le), s[|s| - 1], le)
  }

  /** The elements of `s` that compare equal to `c`, in their order in `s`. */
  function ClassOf<T>(s: seq<T>, c: T, le: (T, T) -> bool): seq<T> {
    if s == [] then []
    else ClassOf(s[..|s| - 1], c, le) + (if Equivalent(s[|s| - 1], c, le) then [s[|s| - 1]] else [])
  }

  lemma PreorderOnSubset<T>(s: seq<T>, u: seq<T>, le: (T, T) -> bool)
    requires PreorderOn(s, le)
    requires forall y :: y in u ==> y in s
    ensures PreorderOn(u, le)
  {
  }

  lemma {:induction false} InsertSorted<T>(t: seq<T>, x: T, le: (T, T) -> bool)
    requires PreorderOn(t + [x], le)
    requires SortedBy(t, le)
    ensures SortedBy(Insert(t, x, le), le)
  {
    if t == [] || le(t[|t| - 1], x) {
      var r := t + [x];
      forall i, j | 0 <= i < j < |r| ensures le(r[i], r[j]) {
        if j == |t| && i < |t| - 1 {
          assert r[i] in t + [x] && t[|t| - 1] in t + [x] && x in t + [x];
          assert le(t[i], t[|t| - 1]);
        }
      }
    } else {
      var t', last := t[..|t| - 1], t[|t| - 1];
      assert last in t + [x] && x in t + [x];
      assert le(x, last);
      PreorderOnSubset(t + [x], t' + [x], le);
      InsertSorted(t', x, le);
      var m := Insert(t', x, le);
      var r := m + [last];
      forall i, j | 0 <= i < j < |r| ensures le(r[i], r[j]) {
        if j == |m| {
          assert r[i] in multiset(m);
          if r[i] != x {
            assert r[i] in multiset(t');
            var k :| 0 <= k < |t'| && t'[k] == r[i];
            assert le(t[k], t[|t| - 1]);
          }
        }
      }
    }
  }

  lemma {:induction false} SortSorted<T>(s: seq<T>, le: (T, T) -> bool)
    requires PreorderOn(s, le)
    ensures SortedBy(SortWith(s, le), le)
  {
    if s != [] {
      var s', last := s[..|s| - 1], s[|s| - 1];
      PreorderOnSubset(s, s', le);
      SortSorted(s', le);
      var t := SortWith(s', le);
      forall y | y in t + [last] ensures y in s {
        if y != last {
          assert y in multiset(s');
        }
      }
      PreorderOnSubset(s, t + [last], le);
      InsertSorted(t, last, le);
    }
  }

  lemma {:induction false} InsertClass<T>(t: seq<T>, x: T, c: T, le: (T, T) -> bool)
    requires PreorderOn(t + [x, c], le)
    requires SortedBy(t, le)
    ensures ClassOf(Insert(t, x, le), c, le) == ClassOf(t, c, le) + (if Equivalent(x, c, le) then [x] else [])
  {
    if t == [] || le(t[|t| - 1], x) {
      assert (t + [x])[..|t|] == t;
      assert Insert(t, x, le) == t + [x];
    } else {
      var t', last := t[..|t| - 1], t[|t| - 1];
      PreorderOnSubset(t + [x, c], t' + [x, c], le);
      InsertClass(t', x, c, le);
      var m := Insert(t', x, le);
      var xs := if Equivalent(x, c, le) then [x] else [];
      var tail := if Equivalent(last, c, le) then [last] else [];
      assert (m + [last])[..|m|] == m;
      assert t[..|t| - 1] == t';
      assert ClassOf(t, c, le) == ClassOf(t', c, le) + tail;
      assert ClassOf(m + [last], c, le) == ClassOf(t', c, le) + xs + tail;
      assert last in t + [x, c] && x in t + [x, c] && c in t + [x, c];
      assert Equivalent(last, c, le) ==> !le(c, x);
      assert xs == [] || tail == [];
      assert Insert(t, x, le) == m + [last];
      assert ClassOf(t', c, le) + xs + tail == ClassOf(t', c, le) + tail + xs;
    }
  }

  /** The sort is stable: each class of equal elements keeps its order. */
  lemma {:induction false} SortStable<T>(s: seq<T>, c: T, le: (T, T) -> bool)
    requires PreorderOn(s + [c], le)
    ensures ClassOf(SortWith(s, le), c, le) == ClassOf(s, c, le)
  {
    if s != [] {
      var s', last := s[..|s| - 1], s[|s| - 1];
      PreorderOnSubset(s + [c], s' + [c], le);
      PreorderOnSubset(s + [c], s', le);
      SortStable(s', c, le);
      SortSorted(s', le);
      var t := SortWith(s', le);
      forall y | y in t + [last, c] ensures y in s + [c] {
        if y != last && y != c {
          assert y in multiset(s');
        }
      }
      PreorderOnSubset(s + [c], t + [last, c], le);
      InsertClass(t, last, c, le);
    }
  }

  /** The first element of `s` equal to `c` heads the class of `c`. */
  lemma {:induction false} ClassHead<T>(s: seq<T>, c: T, le: (T, T) -> bool)
    ensures ClassOf(s, c, le) == [] <==> forall j :: 0 <= j < |s| ==> !Equivalent(s[j], c, le)
    ensures ClassOf(s, c, le) != [] ==>
      exists k :: 0 <= k < |s| && ClassOf(s, c, le)[0] == s[k] && Equivalent(s[k], c, le) &&
        forall j :: 0 <= j < k ==> !Equivalent(s[j], c, le)
  {
    if s != [] {
      var s' := s[..|s| - 1];
      ClassHead(s', c, le);
      if ClassOf(s', c, le) != [] {
        var k :| 0 <= k < |s'| && ClassOf(s', c, le)[0] == s'[k] && Equivalent(s'[k], c, le) &&
          forall j :: 0 <= j < k ==> !Equivalent(s'[j], c, le);
        assert ClassOf(s, c, le)[0] == s[k];
      }
    }
  }

  /** The head of the sorted sequence is a least element of `s`. */
  lemma SortHeadLeast<T>(s: seq<T>, le: (T, T) -> bool)
    requires s != []
    requires PreorderOn(s, le)
    ensures SortWith(s, le)[0] in s
    ensures forall j :: 0 <= j < |s| ==> le(SortWith(s, le)[0], s[j])
  {
    var r := SortWith(s, le);
    assert r[0] in multiset(s);
    SortSorted(s, le);
    forall j | 0 <= j < |s| ensures le(r[0], s[j]) {
      assert s[j] in multiset(r);
      var i :| 0 <= i < |r| && r[i] == s[j];
      if i == 0 {
        assert s[j] in s;
      }
    }
  }

  /** A sequence that starts with an element equal to `c` has that element at the
      head of the class of `c`. */
  lemma {:induction false} ClassStartsWithHead<T>(r: seq<T>, c: T, le: (T, T) -> bool)
    requires r != [] && Equivalent(r[0], c, le)
    ensures ClassOf(r, c, le) != [] && ClassOf(r, c, le)[0] == r[0]
  {
    if |r| > 1 {
      var r' := r[..|r| - 1];
      ClassStartsWithHead(r', c, le);
    }
  }

  /** The position in `s` of the head of the sorted sequence: no earlier element
      compares equal to it. */
  lemma SortHeadIndex<T>(s: seq<T>, le: (T, T) -> bool) returns (k: nat)
    requires s != []
    requires PreorderOn(s, le)
    ensures k < |s| && SortWith(s, le)[0] == s[k]
    ensures forall j :: 0 <= j < k ==> !Equivalent(s[j], s[k], le)
  {
    var r := SortWith(s, le);
    var h := r[0];
    assert h in multiset(s);
    assert h in s;
    PreorderOnSubset(s, s + [h], le);
    SortStable(s, h, le);
    assert Equivalent(h, h, le);
    ClassStartsWithHead(r, h, le);
    ClassHead(s, h, le);
    k :| 0 <= k < |s| && ClassOf(s, h, le)[0] == s[k] && Equivalent(s[k], h, le) &&
      forall j :: 0 <= j < k ==> !Equivalent(s[j], h, le);
  }

  /** The head of the sorted sequence is a least element of `s`, and the first of
      the least elements in the order of `s`: every element before it is strictly
      greater. */
  lemma SortHead<T>(s: seq<T>, le: (T, T) -> bool)
    requires s != []
    requires PreorderOn(s, le)
    ensures exists k :: (0 <= k < |s| && SortWith(s, le)[0] == s[k] &&
      (forall j :: 0 <= j < |s| ==> le(s[k], s[j])) &&
      (forall j :: 0 <= j < k ==> !le(s[j], s[k])))
  {
    var k := SortHeadIndex(s, le);
    SortHeadLeast(s, le);
    assert forall j :: 0 <= j < |s| ==> le(s[k], s[j]);
    assert forall j :: 0 <= j < k ==> !le(s[j], s[k]);
  }
}
