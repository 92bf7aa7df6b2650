/**
  Stable sorting. `IsStableSort` says what Python's list.sort promises; `Sort` is the one
  result that meets it, so every statement about `Sort` is one about list.sort.
 */
module StableSort {

  type Order<!T> = (T, T) -> bool

  ghost predicate TotalPreorder<T(!new)>(le: Order<T>) {
    && (forall x, y :: le(x, y) || le(y, x))
    && (forall x, y, z :: le(x, y) && le(y, z) ==> le(x, z))
  }

  predicate Sorted<T>(s: seq<T>, le: Order<T>) {
    forall i, j :: 0 <= i <= j < |s| ==> i == j || le(s[i], s[j])
  }

  /** The elements that satisfy `p`, in order. */
  function Filter<T>(s: seq<T>, p: T -> bool): (r: seq<T>)
    ensures |r| <= |s|
  {
    if s == [] then []
    else (if p(s[0]) then [s[0]] else []) + Filter(s[1..], p)
  }

  /** Having the same key as `x`. */
  function SameKey<T>(le: Order<T>, x: T): T -> bool {
    y => le(x, y) && le(y, x)
  }

  /** Ordered, and elements with equal keys keep their input order. */
  ghost predicate IsStableSort<T(!new)>(s: seq<T>, r: seq<T>, le: Order<T>) {
    && Sorted(r, le)
    && forall x {:trigger SameKey(le, x)} :: Filter(r, SameKey(le, x)) == Filter(s, SameKey(le, x))
  }

  function Insert<T>(x: T, s: seq<T>, le: Order<T>): seq<T> {
    if s == [] then [x]
    else if le(x, s[0]) then [x] + s
    else [s[0]] + Insert(x, s[1..], le)
  }

  function Sort<T>(s: seq<T>, le: Order<T>): seq<T> {
    if s == [] then [] else Insert(s[0], Sort(s[1..], le), le)
  }

  // ---- Filters -----------------------------------------------------------------

  lemma FilterCons<T>(x: T, s: seq<T>, p: T -> bool)
    ensures Filter([x] + s, p) == (if p(x) then [x] else []) + Filter(s, p)
  {
    assert ([x] + s)[1..] == s;
  }

  lemma {:induction false} FilterMember<T>(s: seq<T>, p: T -> bool, x: T)
    ensures x in Filter(s, p) <==> x in s && p(x)
  {
    if s != [] {
      FilterMember(s[1..], p, x);
    }
  }

  lemma {:induction false} FilterCounts<T>(s: seq<T>, p: T -> bool, x: T)
    ensures multiset(Filter(s, p))[x] == if p(x) then multiset(s)[x] else 0
  {
    if s != [] {
      FilterCounts(s[1..], p, x);
      assert s == [s[0]] + s[1..];
    }
  }

  lemma {:induction false} FilterNone<T>(s: seq<T>, p: T -> bool)
    requires forall x :: x in s ==> !p(x)
    ensures Filter(s, p) == []
  {
    if s != [] {
      assert s[0] in s;
      FilterNone(s[1..], p);
    }
  }

  lemma {:induction false} FilterAgrees<T>(s: seq<T>, p: T -> bool, q: T -> bool)
    requires forall x :: x in s ==> (p(x) <==> q(x))
    ensures Filter(s, p) == Filter(s, q)
  {
    if s != [] {
      assert s[0] in s;
      FilterAgrees(s[1..], p, q);
    }
  }

  /** A filter that is implied by another one may follow it. */
  lemma {:induction false} FilterNested<T(!new)>(s: seq<T>, p: T -> bool, q: T -> bool)
    requires forall x :: q(x) ==> p(x)
    ensures Filter(Filter(s, p), q) == Filter(s, q)
  {
    if s != [] {
      FilterNested(s[1..], p, q);
      var rest := Filter(s[1..], p);
      if p(s[0]) {
        assert Filter(s, p) == [s[0]] + rest;
        FilterCons(s[0], rest, q);
      } else {
        assert Filter(s, p) == rest && Filter(s, q) == Filter(s[1..], q);
      }
    }
  }

  function Both<T>(p: T -> bool, q: T -> bool): T -> bool {
    x => p(x) && q(x)
  }

  /** Filtering twice keeps what passes both filters. */
  lemma {:induction false} FilterBoth<T>(s: seq<T>, p: T -> bool, q: T -> bool)
    ensures Filter(Filter(s, p), q) == Filter(s, Both(p, q))
  {
    if s != [] {
      FilterBoth(s[1..], p, q);
      var both := Both(p, q);
      var rest := Filter(s[1..], p);
      if p(s[0]) {
        assert Filter(s, p) == [s[0]] + rest;
        FilterCons(s[0], rest, q);
      } else {
        assert Filter(s, p) == rest && Filter(s, both) == Filter(s[1..], both);
      }
    }
  }

  /** Two elements that pass a filter keep their order in its result. */
  lemma {:induction false} FilterKeepsOrder<T>(s: seq<T>, p: T -> bool, i: nat, j: nat) returns (a: nat, b: nat)
    requires i < j < |s| && p(s[i]) && p(s[j])
    ensures a < b < |Filter(s, p)| && Filter(s, p)[a] == s[i] && Filter(s, p)[b] == s[j]
  {
    if i > 0 {
      a, b := FilterKeepsOrder(s[1..], p, i - 1, j - 1);
      if p(s[0]) {
        a, b := a + 1, b + 1;
      }
    } else {
      FilterMember(s[1..], p, s[j]);
      assert s[1..][j - 1] == s[j];
      var k :| 0 <= k < |Filter(s[1..], p)| && Filter(s[1..], p)[k] == s[j];
      a, b := 0, k + 1;
    }
  }

  /** A filtered list is a subsequence: its elements come from increasing positions. */
  lemma {:induction false} FilterPositions<T>(s: seq<T>, p: T -> bool, a: nat, b: nat) returns (i: nat, j: nat)
    requires a < b < |Filter(s, p)|
    ensures i < j < |s| && s[i] == Filter(s, p)[a] && s[j] == Filter(s, p)[b]
  {
    if p(s[0]) {
      if a > 0 {
        i, j := FilterPositions(s[1..], p, a - 1, b - 1);
        i, j := i + 1, j + 1;
      } else {
        FilterMember(s[1..], p, Filter(s, p)[b]);
        assert Filter(s, p)[b] == Filter(s[1..], p)[b - 1];
        var k :| 0 <= k < |s[1..]| && s[1..][k] == Filter(s, p)[b];
        i, j := 0, k + 1;
      }
    } else {
      i, j := FilterPositions(s[1..], p, a, b);
      i, j := i + 1, j + 1;
    }
  }

  // ---- Sort is the stable sort -------------------------------------------------

  lemma {:induction false} InsertSorted<T(!new)>(x: T, s: seq<T>, le: Order<T>)
    requires TotalPreorder(le) && Sorted(s, le)
    ensures Sorted(Insert(x, s, le), le)
    ensures forall y :: y in Insert(x, s, le) <==> y == x || y in s
  {
    if s != [] && !le(x, s[0]) {
      InsertSorted(x, s[1..], le);
      var r := Insert(x, s[1..], le);
      forall k | 0 <= k < |r|
        ensures le(s[0], r[k])
      {
        assert r[k] in r;
        if r[k] != x {
          var i :| 0 <= i < |s[1..]| && s[1..][i] == r[k];
          assert s[i + 1] == r[k];
        }
      }
    } else if s != [] {
      forall k | 0 <= k < |s|
        ensures le(x, s[k])
      {
        assert k > 0 ==> le(s[0], s[k]);
      }
    }
  }

  /** The first element that passes is not below the first of the sorted list. */
  lemma FilterHead<T(!new)>(s: seq<T>, le: Order<T>, p: T -> bool)
    requires TotalPreorder(le) && Sorted(s, le) && Filter(s, p) != []
    ensures le(s[0], Filter(s, p)[0])
  {
    var y := Filter(s, p)[0];
    FilterMember(s, p, y);
    var k :| 0 <= k < |s| && s[k] == y;
    assert k == 0 || le(s[0], s[k]);
  }

  /** Filtering after an insertion is inserting into the filtered list. */
  lemma {:induction false} FilterInsert<T(!new)>(x: T, s: seq<T>, le: Order<T>, p: T -> bool)
    requires TotalPreorder(le) && Sorted(s, le)
    ensures Filter(Insert(x, s, le), p) == if p(x) then Insert(x, Filter(s, p), le) else Filter(s, p)
  {
    if s == [] || le(x, s[0]) {
      assert Insert(x, s, le) == [x] + s;
      FilterCons(x, s, p);
      if Filter(s, p) != [] {
        FilterHead(s, le, p);
        assert le(x, Filter(s, p)[0]);
      }
    } else {
      FilterInsert(x, s[1..], le, p);
      FilterCons(s[0], Insert(x, s[1..], le), p);
      var rest := Filter(s[1..], p);
      if p(s[0]) {
        assert Filter(s, p) == [s[0]] + rest && ([s[0]] + rest)[1..] == rest;
      } else {
        assert Filter(s, p) == rest;
      }
    }
  }

  /** Sorting and filtering commute. */
  lemma {:induction false} FilterSort<T(!new)>(s: seq<T>, le: Order<T>, p: T -> bool)
    requires TotalPreorder(le)
    ensures Filter(Sort(s, le), p) == Sort(Filter(s, p), le)
  {
    if s != [] {
      SortSorted(s[1..], le);
      FilterSort(s[1..], le, p);
      FilterInsert(s[0], Sort(s[1..], le), le, p);
      var rest := Filter(s[1..], p);
      if p(s[0]) {
        assert Filter(s, p) == [s[0]] + rest && ([s[0]] + rest)[1..] == rest;
      } else {
        assert Filter(s, p) == rest;
      }
    }
  }

  lemma {:induction false} SortSorted<T(!new)>(s: seq<T>, le: Order<T>)
    requires TotalPreorder(le)
    ensures Sorted(Sort(s, le), le)
    ensures forall y :: y in Sort(s, le) <==> y in s
  {
    if s != [] {
      SortSorted(s[1..], le);
      InsertSorted(s[0], Sort(s[1..], le), le);
    }
  }

  lemma {:induction false} InsertPermutes<T>(x: T, s: seq<T>, le: Order<T>)
    ensures multiset(Insert(x, s, le)) == multiset{x} + multiset(s) && |Insert(x, s, le)| == |s| + 1
  {
    if s != [] {
      InsertPermutes(x, s[1..], le);
      assert s == [s[0]] + s[1..];
    }
  }

  lemma {:induction false} SortPermutes<T>(s: seq<T>, le: Order<T>)
    ensures multiset(Sort(s, le)) == multiset(s) && |Sort(s, le)| == |s|
  {
    if s != [] {
      SortPermutes(s[1..], le);
      InsertPermutes(s[0], Sort(s[1..], le), le);
      assert s == [s[0]] + s[1..];
    }
  }

  /** A list whose elements all have the same key is already sorted. */
  lemma {:induction false} SortSame<T>(s: seq<T>, le: Order<T>)
    requires Sorted(s, le)
    ensures Sort(s, le) == s
  {
    if s != [] {
      SortSame(s[1..], le);
    }
  }

  lemma SortIsStable<T(!new)>(s: seq<T>, le: Order<T>)
    requires TotalPreorder(le)
    ensures IsStableSort(s, Sort(s, le), le)
  {
    SortSorted(s, le);
    forall x
      ensures Filter(Sort(s, le), SameKey(le, x)) == Filter(s, SameKey(le, x))
    {
      var class_ := Filter(s, SameKey(le, x));
      FilterSort(s, le, SameKey(le, x));
      forall i, j | 0 <= i < j < |class_|
        ensures le(class_[i], class_[j])
      {
        FilterMember(s, SameKey(le, x), class_[i]);
        FilterMember(s, SameKey(le, x), class_[j]);
        assert le(class_[i], x) && le(x, class_[j]);
      }
      SortSame(class_, le);
    }
  }

  lemma DropHead<T>(a: seq<T>, b: seq<T>, p: T -> bool)
    requires a != [] && b != [] && a[0] == b[0] && Filter(a, p) == Filter(b, p)
    ensures Filter(a[1..], p) == Filter(b[1..], p)
  {
    if p(a[0]) {
      assert Filter(a, p)[1..] == Filter(a[1..], p) && Filter(b, p)[1..] == Filter(b[1..], p);
    } else {
      assert Filter(a, p) == Filter(a[1..], p) && Filter(b, p) == Filter(b[1..], p);
    }
  }

  /** Sorted lists with the same elements per key are equal. */
  lemma {:induction false} SameClassesSameList<T(!new)>(a: seq<T>, b: seq<T>, le: Order<T>)
    requires TotalPreorder(le) && Sorted(a, le) && Sorted(b, le)
    requires forall x {:trigger SameKey(le, x)} :: Filter(a, SameKey(le, x)) == Filter(b, SameKey(le, x))
    ensures a == b
    decreases |a|
  {
    if a == [] {
      if b != [] {
        HeadClass(b, a, le);
      }
    } else {
      HeadClass(a, b, le);
      HeadClass(b, a, le);
      var x, y := a[0], b[0];
      assert Filter(a, SameKey(le, x))[0] == x;
      assert le(x, y) && le(y, x);
      assert Filter(b, SameKey(le, x))[0] == y;
      forall z
        ensures Filter(a[1..], SameKey(le, z)) == Filter(b[1..], SameKey(le, z))
      {
        assert Filter(a, SameKey(le, z)) == Filter(b, SameKey(le, z));
        DropHead(a, b, SameKey(le, z));
      }
      SameClassesSameList(a[1..], b[1..], le);
    }
  }

  /** The first element of one list has a partner with its key in the other. */
  lemma HeadClass<T(!new)>(a: seq<T>, b: seq<T>, le: Order<T>)
    requires TotalPreorder(le) && Sorted(b, le) && a != []
    requires Filter(a, SameKey(le, a[0])) == Filter(b, SameKey(le, a[0]))
    ensures b != [] && le(b[0], a[0])
    ensures Filter(a, SameKey(le, a[0])) != []
  {
    var p := SameKey(le, a[0]);
    assert le(a[0], a[0]);
    var z := Filter(b, p)[0];
    FilterMember(b, p, z);
    var k :| 0 <= k < |b| && b[k] == z;
    assert k > 0 ==> le(b[0], b[k]);
  }

  /** The promise of list.sort determines its result. */
  lemma StableSortIsUnique<T(!new)>(s: seq<T>, r: seq<T>, le: Order<T>)
    requires TotalPreorder(le)
    ensures IsStableSort(s, r, le) <==> r == Sort(s, le)
  {
    SortIsStable(s, le);
    if IsStableSort(s, r, le) {
      var t := Sort(s, le);
      forall x
        ensures Filter(r, SameKey(le, x)) == Filter(t, SameKey(le, x))
      {
        assert Filter(r, SameKey(le, x)) == Filter(s, SameKey(le, x));
      }
      SameClassesSameList(r, t, le);
    }
  }

  // ---- Sorting twice -----------------------------------------------------------

  /** `le` first, `base` between elements that `le` does not separate. */
  function Lex<T>(le: Order<T>, base: Order<T>): Order<T> {
    (x, y) => le(x, y) && (le(y, x) ==> base(x, y))
  }

  lemma LexIsTotalPreorder<T(!new)>(le: Order<T>, base: Order<T>)
    requires TotalPreorder(le) && TotalPreorder(base)
    ensures TotalPreorder(Lex(le, base))
  {
  }

  /** The same order on what `f` makes of the elements. */
  function Along<T, U>(le: Order<U>, f: T -> U): Order<T> {
    (x, y) => le(f(x), f(y))
  }

  lemma AlongIsTotalPreorder<T(!new), U(!new)>(le: Order<U>, f: T -> U)
    requires TotalPreorder(le)
    ensures TotalPreorder(Along(le, f))
  {
    forall x, y
      ensures Along(le, f)(x, y) || Along(le, f)(y, x)
    {
      assert le(f(x), f(y)) || le(f(y), f(x));
    }
    forall x, y, z | Along(le, f)(x, y) && Along(le, f)(y, z)
      ensures Along(le, f)(x, z)
    {
      assert le(f(x), f(y)) && le(f(y), f(z));
    }
  }

  /** Elements that `le` does not separate stand in a stable sort as they do in the input. */
  lemma TiesKeepOrder<T(!new)>(s: seq<T>, r: seq<T>, le: Order<T>, i: nat, j: nat) returns (a: nat, b: nat)
    requires TotalPreorder(le) && i < j < |r| && le(r[i], r[j]) && le(r[j], r[i])
    requires Filter(r, SameKey(le, r[i])) == Filter(s, SameKey(le, r[i]))
    ensures a < b < |s| && s[a] == r[i] && s[b] == r[j]
  {
    var p := SameKey(le, r[i]);
    assert p(r[i]) && p(r[j]);
    var k, l := FilterKeepsOrder(r, p, i, j);
    a, b := FilterPositions(s, p, k, l);
  }

  /** A second stable sort makes its order the first key and the earlier order the second. */
  lemma SortTwice<T(!new)>(s: seq<T>, base: Order<T>, le: Order<T>)
    requires TotalPreorder(le) && TotalPreorder(base)
    ensures Sort(Sort(s, base), le) == Sort(s, Lex(le, base))
  {
    var t := Sort(s, base);
    var r := Sort(t, le);
    var both := Lex(le, base);
    LexIsTotalPreorder(le, base);
    SortIsStable(s, base);
    SortIsStable(t, le);
    forall i, j | 0 <= i < j < |r|
      ensures both(r[i], r[j])
    {
      if le(r[j], r[i]) {
        assert Filter(r, SameKey(le, r[i])) == Filter(t, SameKey(le, r[i]));
        var a, b := TiesKeepOrder(t, r, le, i, j);
      }
    }
    forall x
      ensures Filter(r, SameKey(both, x)) == Filter(s, SameKey(both, x))
    {
      var p := SameKey(both, x);
      FilterNested(r, SameKey(le, x), p);
      FilterNested(t, SameKey(le, x), p);
      FilterNested(t, SameKey(base, x), p);
      FilterNested(s, SameKey(base, x), p);
      assert Filter(r, SameKey(le, x)) == Filter(t, SameKey(le, x));
      assert Filter(t, SameKey(base, x)) == Filter(s, SameKey(base, x));
    }
    StableSortIsUnique(s, r, both);
  }

  /** Ties of `le` already stand in the order `base`. */
  ghost predicate TiesInOrder<T>(s: seq<T>, le: Order<T>, base: Order<T>) {
    forall i, j :: 0 <= i < j < |s| && le(s[i], s[j]) && le(s[j], s[i]) ==> base(s[i], s[j])
  }

  /** Refining an order by a second key changes nothing exactly when ties are in order already. */
  lemma RefinedSortAgrees<T(!new)>(s: seq<T>, base: Order<T>, le: Order<T>)
    requires TotalPreorder(le) && TotalPreorder(base)
    ensures Sort(s, Lex(le, base)) == Sort(s, le) <==> TiesInOrder(s, le, base)
  {
    var r := Sort(s, le);
    var both := Lex(le, base);
    LexIsTotalPreorder(le, base);
    SortIsStable(s, le);
    forall x
      ensures Filter(r, SameKey(both, x)) == Filter(s, SameKey(both, x))
    {
      FilterNested(r, SameKey(le, x), SameKey(both, x));
      FilterNested(s, SameKey(le, x), SameKey(both, x));
      assert Filter(r, SameKey(le, x)) == Filter(s, SameKey(le, x));
    }
    StableSortIsUnique(s, r, both);
    if TiesInOrder(s, le, base) {
      forall i, j | 0 <= i < j < |r|
        ensures both(r[i], r[j])
      {
        if le(r[j], r[i]) {
          assert Filter(r, SameKey(le, r[i])) == Filter(s, SameKey(le, r[i]));
          var a, b := TiesKeepOrder(s, r, le, i, j);
        }
      }
    }
    if Sorted(r, both) {
      forall i, j | 0 <= i < j < |s| && le(s[i], s[j]) && le(s[j], s[i])
        ensures base(s[i], s[j])
      {
        assert Filter(r, SameKey(le, s[i])) == Filter(s, SameKey(le, s[i]));
        var a, b := TiesKeepOrder(r, s, le, i, j);
        assert both(r[a], r[b]);
      }
    }
  }

  /** Orders that agree sort alike. */
  lemma {:induction false} SortAgrees<T(!new)>(s: seq<T>, le: Order<T>, other: Order<T>)
    requires forall x, y :: le(x, y) <==> other(x, y)
    ensures Sort(s, le) == Sort(s, other)
  {
    if s != [] {
      SortAgrees(s[1..], le, other);
      InsertAgrees(s[0], Sort(s[1..], le), le, other);
    }
  }

  lemma {:induction false} InsertAgrees<T(!new)>(x: T, s: seq<T>, le: Order<T>, other: Order<T>)
    requires forall y, z :: le(y, z) <==> other(y, z)
    ensures Insert(x, s, le) == Insert(x, s, other)
  {
    if s != [] {
      InsertAgrees(x, s[1..], le, other);
    }
  }

  // ---- Text --------------------------------------------------------------------

  /** Strings compare by their first differing character. */
  predicate TextLe(a: string, b: string) {
    a == [] || (b != [] && (a[0] < b[0] || (a[0] == b[0] && TextLe(a[1..], b[1..]))))
  }

  /** The first difference decides, and a prefix comes before what it begins. */
  lemma {:induction false} FirstDifferenceDecides(a: string, b: string, n: nat)
    requires n <= |a| && n <= |b| && a[..n] == b[..n]
    ensures n < |a| && n < |b| && a[n] != b[n] ==> (TextLe(a, b) <==> a[n] < b[n])
    ensures n == |a| ==> TextLe(a, b)
    ensures n == |b| ==> TextLe(b, a)
    decreases n
  {
    if n > 0 {
      assert a[0] == a[..n][0] == b[..n][0] == b[0];
      assert a[1..][..n - 1] == a[..n][1..] == b[..n][1..] == b[1..][..n - 1];
      FirstDifferenceDecides(a[1..], b[1..], n - 1);
    }
  }

  lemma {:induction false} TextLeTotal(a: string, b: string)
    ensures TextLe(a, b) || TextLe(b, a)
    ensures TextLe(a, b) && TextLe(b, a) ==> a == b
  {
    if a != [] && b != [] && a[0] == b[0] {
      TextLeTotal(a[1..], b[1..]);
      assert a == [a[0]] + a[1..] && b == [b[0]] + b[1..];
    }
  }

  lemma {:induction false} TextLeTransitive(a: string, b: string, c: string)
    requires TextLe(a, b) && TextLe(b, c)
    ensures TextLe(a, c)
  {
    if a != [] && a[0] == b[0] == c[0] {
      TextLeTransitive(a[1..], b[1..], c[1..]);
    }
  }

  lemma TextOrder()
    ensures TotalPreorder(TextLe)
  {
    forall a, b
      ensures TextLe(a, b) || TextLe(b, a)
    {
      TextLeTotal(a, b);
    }
    forall a, b, c | TextLe(a, b) && TextLe(b, c)
      ensures TextLe(a, c)
    {
      TextLeTransitive(a, b, c);
    }
  }
}
