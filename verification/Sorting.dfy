/** Sorting by a total order: finite sets into sequences, and stable insertion sort of sequences. */
module Sorting {
  import opened Text

  ghost predicate TotalOrder<T(!new)>(leq: (T, T) -> bool) {
    && (forall a, b :: leq(a, b) || leq(b, a))
    && (forall a, b :: leq(a, b) && leq(b, a) ==> a == b)
    && (forall a, b, c :: leq(a, b) && leq(b, c) ==> leq(a, c))
  }

  ghost predicate IsLeast<T>(leq: (T, T) -> bool, x: T, s: set<T>) {
    x in s && forall y :: y in s ==> leq(x, y)
  }

  ghost predicate SortedBy<T>(leq: (T, T) -> bool, s: seq<T>) {
    forall i, j :: 0 <= i < j < |s| ==> leq(s[i], s[j])
  }

  lemma {:induction false} LeastExists<T(!new)>(leq: (T, T) -> bool, s: set<T>)
    requires TotalOrder(leq) && s != {}
    ensures exists x :: IsLeast(leq, x, s)
  {
    var x :| x in s;
    var rest := s - {x};
    if rest == {} {
      assert s == {x};
      assert IsLeast(leq, x, s);
    } else {
      LeastExists(leq, rest);
      var y :| IsLeast(leq, y, rest);
      assert forall z :: z in s ==> z == x || z in rest;
      if leq(x, y) {
        assert IsLeast(leq, x, s);
      } else {
        assert IsLeast(leq, y, s);
      }
    }
  }

  /** The least element; a total order has only one. */
  function Least<T(!new, ==)>(leq: (T, T) -> bool, s: set<T>): (least: T)
    requires TotalOrder(leq) && s != {}
    ensures IsLeast(leq, least, s)
  {
    LeastExists(leq, s);
    var x :| x in s && forall y :: y in s ==> leq(x, y);
    x
  }

  /** The elements of `s` in ascending order, however the set was listed. */
  function SortSet<T(!new, ==)>(leq: (T, T) -> bool, s: set<T>): seq<T>
    requires TotalOrder(leq)
  {
    if s == {} then [] else
      var x := Least(leq, s);
      [x] + SortSet(leq, s - {x})
  }

  lemma {:induction false} SortSetSpec<T(!new)>(leq: (T, T) -> bool, s: set<T>)
    requires TotalOrder(leq)
    ensures forall x :: x in SortSet(leq, s) <==> x in s
    ensures |SortSet(leq, s)| == |s|
    ensures SortedBy(leq, SortSet(leq, s))
  {
    if s != {} {
      var x := Least(leq, s);
      SortSetSpec(leq, s - {x});
      var rest := SortSet(leq, s - {x});
      assert forall j :: 0 <= j < |rest| ==> rest[j] in s;
    }
  }

  lemma {:induction false} SortSetDistinct<T(!new)>(leq: (T, T) -> bool, s: set<T>)
    requires TotalOrder(leq)
    ensures forall i, j :: 0 <= i < j < |SortSet(leq, s)| ==> SortSet(leq, s)[i] != SortSet(leq, s)[j]
  {
    if s != {} {
      var x := Least(leq, s);
      SortSetDistinct(leq, s - {x});
      SortSetSpec(leq, s - {x});
      var rest := SortSet(leq, s - {x});
      assert forall j :: 0 <= j < |rest| ==> rest[j] in s - {x};
    }
  }

  /** Any two elements compare, and comparison is transitive; ties are allowed. */
  ghost predicate Preorder<T(!new)>(leq: (T, T) -> bool) {
    && (forall a, b :: leq(a, b) || leq(b, a))
    && (forall a, b, c :: leq(a, b) && leq(b, c) ==> leq(a, c))
  }

  function Insert<T>(leq: (T, T) -> bool, x: T, s: seq<T>): seq<T> {
    if s == [] || leq(x, s[0]) then [x] + s else [s[0]] + Insert(leq, x, s[1..])
  }

  /** Stable sort: an element goes in front of the later ones it ties with. */
  function Sort<T>(leq: (T, T) -> bool, s: seq<T>): seq<T> {
    if s == [] then [] else Insert(leq, s[0], Sort(leq, s[1..]))
  }

  lemma {:induction false} InsertMembers<T(!new)>(leq: (T, T) -> bool, x: T, s: seq<T>)
    ensures multiset(Insert(leq, x, s)) == multiset([x]) + multiset(s)
    ensures forall y :: y in Insert(leq, x, s) <==> y == x || y in s
  {
    if s != [] && !leq(x, s[0]) {
      assert s == [s[0]] + s[1..];
      InsertMembers(leq, x, s[1..]);
    }
  }

  /** What precedes the head of a sorted list precedes all of it. */
  lemma {:induction false} BeforeHeadBeforeAll<T(!new)>(leq: (T, T) -> bool, x: T, s: seq<T>)
    requires Preorder(leq) && SortedBy(leq, s) && s != [] && leq(x, s[0])
    ensures forall y :: y in s ==> leq(x, y)
  {
    forall y | y in s
      ensures leq(x, y)
    {
      var j :| 0 <= j < |s| && s[j] == y;
      if j > 0 { assert leq(s[0], s[j]); }
    }
  }

  lemma {:induction false} ConsIsSorted<T(!new)>(leq: (T, T) -> bool, x: T, s: seq<T>)
    requires SortedBy(leq, s) && forall y :: y in s ==> leq(x, y)
    ensures SortedBy(leq, [x] + s)
  {
  }

  lemma {:induction false} InsertSorts<T(!new)>(leq: (T, T) -> bool, x: T, s: seq<T>)
    requires Preorder(leq) && SortedBy(leq, s)
    ensures SortedBy(leq, Insert(leq, x, s))
  {
    if s != [] {
      if leq(x, s[0]) {
        BeforeHeadBeforeAll(leq, x, s);
        ConsIsSorted(leq, x, s);
      } else {
        var rest := s[1..];
        InsertSorts(leq, x, rest);
        InsertMembers(leq, x, rest);
        assert forall i :: 0 <= i < |rest| ==> leq(s[0], rest[i]) && rest[i] == s[i + 1];
        ConsIsSorted(leq, s[0], Insert(leq, x, rest));
      }
    }
  }

  lemma {:induction false} SortSpec<T(!new)>(leq: (T, T) -> bool, s: seq<T>)
    requires Preorder(leq)
    ensures SortedBy(leq, Sort(leq, s))
    ensures multiset(Sort(leq, s)) == multiset(s)
    ensures |Sort(leq, s)| == |s|
    ensures forall y :: y in Sort(leq, s) <==> y in s
  {
    if s != [] {
      assert s == [s[0]] + s[1..];
      SortSpec(leq, s[1..]);
      InsertMembers(leq, s[0], Sort(leq, s[1..]));
      InsertSorts(leq, s[0], Sort(leq, s[1..]));
      assert |multiset(Sort(leq, s))| == |multiset(s)|;
    }
  }

  /** `x` stands somewhere before `y`. */
  ghost predicate StandsBefore<T(!new)>(s: seq<T>, x: T, y: T) {
    exists p, q :: 0 <= p < q < |s| && s[p] == x && s[q] == y
  }

  lemma {:induction false} ConsStandsBefore<T(!new)>(h: T, s: seq<T>, x: T, y: T)
    requires StandsBefore(s, x, y) || (x == h && y in s)
    ensures StandsBefore([h] + s, x, y)
  {
    var t := [h] + s;
    if x == h && y in s {
      var q :| 0 <= q < |s| && s[q] == y;
      assert t[0] == x && t[q + 1] == y;
    } else {
      var p, q :| 0 <= p < q < |s| && s[p] == x && s[q] == y;
      assert t[p + 1] == x && t[q + 1] == y;
    }
  }

  lemma {:induction false} TailStandsBefore<T(!new)>(s: seq<T>, x: T, y: T)
    requires StandsBefore(s, x, y)
    ensures (x == s[0] && y in s[1..]) || StandsBefore(s[1..], x, y)
  {
    var p, q :| 0 <= p < q < |s| && s[p] == x && s[q] == y;
    assert s[1..][q - 1] == y;
    if p > 0 {
      assert s[1..][p - 1] == x;
    }
  }

  /** An inserted element goes in front of everything it may precede. */
  lemma {:induction false} InsertStandsBefore<T(!new)>(leq: (T, T) -> bool, x: T, s: seq<T>, y: T)
    requires y in s && leq(x, y)
    ensures StandsBefore(Insert(leq, x, s), x, y)
  {
    if leq(x, s[0]) {
      ConsStandsBefore(x, s, x, y);
    } else {
      assert s == [s[0]] + s[1..];
      InsertStandsBefore(leq, x, s[1..], y);
      ConsStandsBefore(s[0], Insert(leq, x, s[1..]), x, y);
    }
  }

  lemma {:induction false} InsertKeepsBefore<T(!new)>(leq: (T, T) -> bool, h: T, s: seq<T>, x: T, y: T)
    requires StandsBefore(s, x, y)
    ensures StandsBefore(Insert(leq, h, s), x, y)
  {
    if s == [] || leq(h, s[0]) {
      ConsStandsBefore(h, s, x, y);
    } else {
      TailStandsBefore(s, x, y);
      InsertMembers(leq, h, s[1..]);
      if StandsBefore(s[1..], x, y) {
        InsertKeepsBefore(leq, h, s[1..], x, y);
      }
      ConsStandsBefore(s[0], Insert(leq, h, s[1..]), x, y);
    }
  }

  /** Stability: what stands before a later element it may precede still does after sorting. */
  lemma {:induction false} SortIsStable<T(!new)>(leq: (T, T) -> bool, s: seq<T>, x: T, y: T)
    requires Preorder(leq) && StandsBefore(s, x, y) && leq(x, y)
    ensures StandsBefore(Sort(leq, s), x, y)
  {
    TailStandsBefore(s, x, y);
    SortSpec(leq, s[1..]);
    if StandsBefore(s[1..], x, y) {
      SortIsStable(leq, s[1..], x, y);
      InsertKeepsBefore(leq, s[0], Sort(leq, s[1..]), x, y);
    } else {
      InsertStandsBefore(leq, x, Sort(leq, s[1..]), y);
    }
  }

  lemma {:induction false} SortOfSorted<T(!new)>(leq: (T, T) -> bool, s: seq<T>)
    requires SortedBy(leq, s)
    ensures Sort(leq, s) == s
  {
    if s != [] {
      assert forall i :: 0 <= i < |s[1..]| ==> s[1..][i] == s[i + 1];
      SortOfSorted(leq, s[1..]);
      assert |s| > 1 ==> leq(s[0], s[1]);
    }
  }

  lemma {:induction false} HeadsAgree<T(!new)>(leq: (T, T) -> bool, a: seq<T>, b: seq<T>)
    requires TotalOrder(leq) && SortedBy(leq, a) && SortedBy(leq, b) && multiset(a) == multiset(b) && a != []
    ensures b != [] && a[0] == b[0]
  {
    assert a[0] in multiset(a);
    assert a[0] in multiset(b);
    assert b[0] in multiset(b);
    assert b[0] in multiset(a);
    HeadIsLeast(leq, a, b[0]);
    HeadIsLeast(leq, b, a[0]);
  }

  /** A total order sorts a multiset in only one way. */
  lemma {:induction false} SortedIsUnique<T(!new)>(leq: (T, T) -> bool, a: seq<T>, b: seq<T>)
    requires TotalOrder(leq) && SortedBy(leq, a) && SortedBy(leq, b) && multiset(a) == multiset(b)
    ensures a == b
  {
    if a == [] {
      assert |multiset(b)| == 0;
    } else {
      HeadsAgree(leq, a, b);
      TailOf(leq, a);
      TailOf(leq, b);
      SortedIsUnique(leq, a[1..], b[1..]);
    }
  }

  lemma {:induction false} TailOf<T>(leq: (T, T) -> bool, s: seq<T>)
    requires SortedBy(leq, s) && s != []
    ensures SortedBy(leq, s[1..])
    ensures s == [s[0]] + s[1..]
    ensures multiset(s[1..]) == multiset(s) - multiset{s[0]}
  {
    assert s == [s[0]] + s[1..];
  }

  lemma {:induction false} HeadIsLeast<T(!new)>(leq: (T, T) -> bool, s: seq<T>, x: T)
    requires TotalOrder(leq) && SortedBy(leq, s) && x in s
    ensures leq(s[0], x)
  {
    var i :| 0 <= i < |s| && s[i] == x;
    if i > 0 { assert leq(s[0], s[i]); }
  }

  /** Re-sorting any permutation of a sorted list gives the list back. */
  lemma {:induction false} ResortIsIdentity<T(!new)>(leq: (T, T) -> bool, sorted: seq<T>, shuffled: seq<T>)
    requires TotalOrder(leq) && SortedBy(leq, sorted) && multiset(sorted) == multiset(shuffled)
    ensures Sort(leq, shuffled) == sorted
  {
    SortSpec(leq, shuffled);
    SortedIsUnique(leq, Sort(leq, shuffled), sorted);
  }

  /** `fine` breaks the ties of `coarse` and agrees with it otherwise. */
  ghost predicate Refines<T(!new)>(fine: (T, T) -> bool, coarse: (T, T) -> bool) {
    && (forall a, b :: fine(a, b) ==> coarse(a, b))
    && (forall a, b :: coarse(a, b) && !coarse(b, a) ==> fine(a, b))
  }

  /** Where ties already stand in the finer order, a stable sort by the coarse key sorts by the finer one. */
  lemma {:induction false} StableSortRefines<T(!new)>(coarse: (T, T) -> bool, fine: (T, T) -> bool, s: seq<T>)
    requires Preorder(coarse) && TotalOrder(fine) && Refines(fine, coarse)
    requires forall i, j :: 0 <= i < j < |s| && coarse(s[j], s[i]) && coarse(s[i], s[j]) ==> fine(s[i], s[j])
    ensures Sort(coarse, s) == Sort(fine, s)
  {
    if s != [] {
      var x, rest := s[0], s[1..];
      forall i, j | 0 <= i < j < |rest| && coarse(rest[j], rest[i]) && coarse(rest[i], rest[j])
        ensures fine(rest[i], rest[j])
      {
        assert rest[i] == s[i + 1] && rest[j] == s[j + 1];
      }
      StableSortRefines(coarse, fine, rest);
      SortSpec(fine, rest);
      forall y | y in Sort(fine, rest)
        ensures coarse(x, y) <==> fine(x, y)
      {
        var k :| 0 <= k < |rest| && rest[k] == y;
        assert s[k + 1] == y;
      }
      InsertAgrees(coarse, fine, x, Sort(fine, rest));
    }
  }

  lemma {:induction false} InsertAgrees<T(!new)>(a: (T, T) -> bool, b: (T, T) -> bool, x: T, s: seq<T>)
    requires forall y :: y in s ==> (a(x, y) <==> b(x, y))
    ensures Insert(a, x, s) == Insert(b, x, s)
  {
    if s != [] {
      assert s[0] in s;
      InsertAgrees(a, b, x, s[1..]);
    }
  }

  function Mapped<T, U>(s: seq<T>, f: T -> U): (r: seq<U>)
    ensures |r| == |s|
    ensures forall i :: 0 <= i < |s| ==> r[i] == f(s[i])
  {
    seq(|s|, i requires 0 <= i < |s| => f(s[i]))
  }

  function RemoveAt<T>(s: seq<T>, k: nat): (r: seq<T>)
    requires k < |s|
    ensures |r| == |s| - 1
  {
    s[..k] + s[k + 1..]
  }

  lemma {:induction false} RemoveAtMultiset<T>(s: seq<T>, k: nat)
    requires k < |s|
    ensures multiset(s) == multiset(RemoveAt(s, k)) + multiset{s[k]}
    ensures multiset(RemoveAt(s, k)) == multiset(s) - multiset{s[k]}
  {
    assert s == s[..k] + [s[k]] + s[k + 1..];
  }

  lemma {:induction false} RemoveAtMapped<T, U>(s: seq<T>, k: nat, f: T -> U)
    requires k < |s|
    ensures Mapped(RemoveAt(s, k), f) == RemoveAt(Mapped(s, f), k)
  {
  }

  /** Mapping two permutations of one list gives permutations of one list. */
  lemma {:induction false} MappedPermutation<T, U>(a: seq<T>, b: seq<T>, f: T -> U)
    requires multiset(a) == multiset(b)
    ensures multiset(Mapped(a, f)) == multiset(Mapped(b, f))
    decreases |a|
  {
    if a == [] {
      assert |multiset(b)| == 0;
    } else {
      var k := FindIn(a[0], a, b);
      RemoveAtMultiset(a, 0);
      RemoveAtMultiset(b, k);
      MappedPermutation(RemoveAt(a, 0), RemoveAt(b, k), f);
      RemoveAtMapped(a, 0, f);
      RemoveAtMapped(b, k, f);
      RemoveAtMultiset(Mapped(a, f), 0);
      RemoveAtMultiset(Mapped(b, f), k);
    }
  }

  lemma {:induction false} FindIn<T>(x: T, a: seq<T>, b: seq<T>) returns (k: nat)
    requires x in a && multiset(a) == multiset(b)
    ensures k < |b| && b[k] == x
  {
    assert x in multiset(a);
    assert x in b;
    k :| k < |b| && b[k] == x;
  }

  /** The order Python sorts strings in. */
  function LexOrder(): (string, string) -> bool {
    (a, b) => LexLeq(a, b)
  }

  lemma {:induction false} LexOrderTotal()
    ensures TotalOrder(LexOrder())
  {
    forall a: string, b: string
      ensures LexLeq(a, b) || LexLeq(b, a)
      ensures LexLeq(a, b) && LexLeq(b, a) ==> a == b
    {
      LexTotal(a, b);
      if LexLeq(a, b) && LexLeq(b, a) { LexAntisymmetric(a, b); }
    }
    forall a: string, b: string, c: string | LexLeq(a, b) && LexLeq(b, c)
      ensures LexLeq(a, c)
    {
      LexTransitive(a, b, c);
    }
  }
}
