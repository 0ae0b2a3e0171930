/**
 Order-keeping list operations: `dict.fromkeys` deduplication, filtered
 comprehensions, and how the two commute.
 */
module Lists {
  import opened Prelude

  /** First occurrences, in order: `list(dict.fromkeys(s))`. */
  function Dedupe<T(==)>(s: seq<T>): seq<T> {
    if s == [] then [] else
      var init := Dedupe(s[..|s| - 1]);
      if s[|s| - 1] in init then init else init + [s[|s| - 1]]
  }

  /** `[y for x in s if (y := f(x)) is not None]`. */
  function FilterMap<T, U>(s: seq<T>, f: T -> Option<U>): seq<U> {
    if s == [] then [] else
      var init := FilterMap(s[..|s| - 1], f);
      var y := f(s[|s| - 1]);
      if y.Some? then init + [y.value] else init
  }

  /** `[x for x in s if p(x)]` */
  function Filter<T>(s: seq<T>, p: T -> bool): seq<T> {
    if s == [] then [] else (if p(s[0]) then [s[0]] else []) + Filter(s[1..], p)
  }

  /** The elements of `s` that are not listed in `drop`. */
  function Without<T(==)>(s: seq<T>, drop: seq<T>): seq<T> {
    if s == [] then [] else
      var init := Without(s[..|s| - 1], drop);
      if s[|s| - 1] in drop then init else init + [s[|s| - 1]]
  }

  /** `s[:n]` */
  function Take<T>(s: seq<T>, n: nat): seq<T> {
    if |s| <= n then s else s[..n]
  }

  predicate NoDuplicates<T(==)>(s: seq<T>) {
    forall i, j :: 0 <= i < j < |s| ==> s[i] != s[j]
  }

  lemma {:induction false} DedupeSpec<T>(s: seq<T>)
    ensures NoDuplicates(Dedupe(s))
    ensures forall x :: x in Dedupe(s) <==> x in s
    ensures |Dedupe(s)| <= |s|
  {
    if s != [] {
      DedupeSpec(s[..|s| - 1]);
      assert s == s[..|s| - 1] + [s[|s| - 1]];
    }
  }

  lemma {:induction false} DedupeOfDistinct<T>(s: seq<T>)
    requires NoDuplicates(s)
    ensures Dedupe(s) == s
  {
    if s != [] {
      var init := s[..|s| - 1];
      DedupeOfDistinct(init);
      assert s == init + [s[|s| - 1]];
      assert forall i :: 0 <= i < |init| ==> init[i] == s[i];
    }
  }

  /** Deduplicating `a + b` keeps the deduplicated `a` in front. */
  lemma {:induction false} DedupePrefix<T>(a: seq<T>, b: seq<T>)
    ensures |Dedupe(a)| <= |Dedupe(a + b)|
    ensures Dedupe(a + b)[..|Dedupe(a)|] == Dedupe(a)
  {
    if b == [] {
      assert a + b == a;
    } else {
      var c := b[..|b| - 1];
      DedupePrefix(a, c);
      assert (a + b)[..|a + b| - 1] == a + c;
    }
  }

  lemma {:induction false} DedupeAppend<T>(s: seq<T>, x: T)
    ensures Dedupe(s + [x]) == if x in s then Dedupe(s) else Dedupe(s) + [x]
  {
    assert (s + [x])[..|s|] == s;
    DedupeSpec(s);
  }

  /** Elements of `b` that are dropped must already stand in `a`; then nothing changes. */
  lemma {:induction false} DedupeWithout<T>(a: seq<T>, b: seq<T>, drop: seq<T>)
    requires forall x :: x in b && x in drop ==> x in a
    ensures Dedupe(a + Without(b, drop)) == Dedupe(a + b)
    ensures forall x :: x in Without(b, drop) <==> x in b && x !in drop
  {
    if b == [] {
    } else {
      var c, x := b[..|b| - 1], b[|b| - 1];
      assert b == c + [x];
      DedupeWithout(a, c, drop);
      assert a + b == (a + c) + [x];
      DedupeAppend(a + c, x);
      if x !in drop {
        assert a + Without(b, drop) == (a + Without(c, drop)) + [x];
        DedupeAppend(a + Without(c, drop), x);
      }
    }
  }

  lemma {:induction false} WithoutMembers<T>(s: seq<T>, drop: seq<T>)
    ensures forall x :: x in Without(s, drop) <==> x in s && x !in drop
  {
    if s != [] {
      assert s == s[..|s| - 1] + [s[|s| - 1]];
      WithoutMembers(s[..|s| - 1], drop);
    }
  }

  lemma {:induction false} DedupeAbsorb<T>(a: seq<T>, b: seq<T>)
    requires forall x :: x in b ==> x in a
    ensures Dedupe(a + b) == Dedupe(a)
  {
    if b == [] {
      assert a + b == a;
    } else {
      var c, x := b[..|b| - 1], b[|b| - 1];
      assert b == c + [x];
      DedupeAbsorb(a, c);
      assert a + b == (a + c) + [x];
      DedupeAppend(a + c, x);
    }
  }

  lemma {:induction false} LastIsNew<T>(s: seq<T>)
    requires NoDuplicates(s) && s != []
    ensures NoDuplicates(s[..|s| - 1]) && s[|s| - 1] !in s[..|s| - 1]
  {
  }

  /** New, distinct elements are appended whole. */
  lemma {:induction false} DedupeDistinctTail<T>(a: seq<T>, tail: seq<T>)
    requires NoDuplicates(tail)
    requires forall x :: x in tail ==> x !in a
    ensures Dedupe(a + tail) == Dedupe(a) + tail
  {
    if tail == [] {
      assert a + tail == a;
    } else {
      var t, x := tail[..|tail| - 1], tail[|tail| - 1];
      assert tail == t + [x];
      LastIsNew(tail);
      DedupeDistinctTail(a, t);
      DedupeAppend(a + t, x);
      assert a + tail == (a + t) + [x];
      calc {
        Dedupe((a + t) + [x]);
        (Dedupe(a) + t) + [x];
        Dedupe(a) + (t + [x]);
      }
    }
  }

  lemma {:induction false} FilterMapAppend<T, U>(s: seq<T>, x: T, f: T -> Option<U>)
    ensures FilterMap(s + [x], f) == FilterMap(s, f) + (if f(x).Some? then [f(x).value] else [])
  {
    assert (s + [x])[..|s|] == s;
  }

  lemma {:induction false} FilterMapConcat<T, U>(a: seq<T>, b: seq<T>, f: T -> Option<U>)
    ensures FilterMap(a + b, f) == FilterMap(a, f) + FilterMap(b, f)
  {
    if b == [] {
      assert a + b == a;
    } else {
      var c, x := b[..|b| - 1], b[|b| - 1];
      assert b == c + [x];
      FilterMapConcat(a, c, f);
      assert a + b == (a + c) + [x];
      FilterMapAppend(a + c, x, f);
      FilterMapAppend(c, x, f);
    }
  }

  lemma {:induction false} FilterMapMembers<T, U>(s: seq<T>, f: T -> Option<U>)
    ensures forall y :: y in FilterMap(s, f) <==> exists x :: x in s && f(x) == Some(y)
  {
    if s != [] {
      FilterMapMembers(s[..|s| - 1], f);
      assert s == s[..|s| - 1] + [s[|s| - 1]];
    }
  }

  lemma {:induction false} FilterMapHas<T, U>(s: seq<T>, x: T, f: T -> Option<U>)
    requires x in s && f(x).Some?
    ensures f(x).value in FilterMap(s, f)
  {
    if x != s[|s| - 1] {
      assert s == s[..|s| - 1] + [s[|s| - 1]];
      FilterMapHas(s[..|s| - 1], x, f);
    }
  }

  /** A filtered comprehension over fixed points of `f` returns its input. */
  lemma {:induction false} FilterMapFixed<T>(s: seq<T>, f: T -> Option<T>)
    requires forall x :: x in s ==> f(x) == Some(x)
    ensures FilterMap(s, f) == s
  {
    if s != [] {
      assert s == s[..|s| - 1] + [s[|s| - 1]];
      FilterMapFixed(s[..|s| - 1], f);
    }
  }

  /** Deduplicating before a filtered comprehension is absorbed by deduplicating after it. */
  lemma {:induction false} DedupeFilterMap<T, U>(s: seq<T>, f: T -> Option<U>)
    ensures Dedupe(FilterMap(Dedupe(s), f)) == Dedupe(FilterMap(s, f))
  {
    if s != [] {
      var init, x := s[..|s| - 1], s[|s| - 1];
      assert s == init + [x];
      DedupeFilterMap(init, f);
      DedupeSpec(init);
      FilterMapMembers(init, f);
      FilterMapMembers(Dedupe(init), f);
      FilterMapAppend(init, x, f);
      if f(x).Some? {
        DedupeAppend(FilterMap(init, f), f(x).value);
        if x in init {
          FilterMapHas(init, x, f);
        } else {
          FilterMapAppend(Dedupe(init), x, f);
          DedupeAppend(FilterMap(Dedupe(init), f), f(x).value);
        }
      } else if x !in init {
        FilterMapAppend(Dedupe(init), x, f);
      }
    }
  }

  /** Two filtered comprehensions fuse into one. */
  lemma {:induction false} FilterMapFuse<T, U, V>(s: seq<T>, f: T -> Option<U>, g: U -> Option<V>, h: T -> Option<V>)
    requires forall x :: x in s ==> h(x) == if f(x).Some? then g(f(x).value) else None
    ensures FilterMap(FilterMap(s, f), g) == FilterMap(s, h)
  {
    if s != [] {
      var init, x := s[..|s| - 1], s[|s| - 1];
      assert s == init + [x];
      FilterMapFuse(init, f, g, h);
      if f(x).Some? {
        FilterMapAppend(FilterMap(init, f), f(x).value, g);
      }
    }
  }

  lemma {:induction false} FilterMembers<T>(s: seq<T>, p: T -> bool)
    ensures forall x :: x in Filter(s, p) <==> x in s && p(x)
  {
    if s != [] {
      FilterMembers(s[1..], p);
      assert s == [s[0]] + s[1..];
    }
  }
}
