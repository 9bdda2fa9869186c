/** Searching a list and picking from it, from the front. */
module Lists {
  import opened Bytes
  import opened Wrappers

  predicate FirstAt<T>(s: seq<T>, p: T -> bool, i: int) {
    0 <= i < |s| && p(s[i]) && forall j | 0 <= j < i :: !p(s[j])
  }

  /** The first that passes. */
  function First<T(==)>(s: seq<T>, p: T -> bool): (r: Option<T>)
    ensures r.None? <==> forall i | 0 <= i < |s| :: !p(s[i])
    ensures r.Some? ==> exists i :: FirstAt(s, p, i) && s[i] == r.value
  {
    if s == [] then None
    else
      var n := |s| - 1;
      var r := First(s[..n], p);
      assert forall i | 0 <= i < n :: s[..n][i] == s[i];
      if r.Some? then
        var i :| FirstAt(s[..n], p, i) && s[..n][i] == r.value;
        assert FirstAt(s, p, i);
        r
      else if p(s[n]) then
        assert FirstAt(s, p, n);
        Some(s[n])
      else None
  }

  lemma {:induction false} FirstAppend<T>(a: seq<T>, b: seq<T>, p: T -> bool)
    ensures First(a + b, p) == if First(a, p).Some? then First(a, p) else First(b, p)
  {
    if b == [] {
      assert a + b == a;
    } else {
      var n := |b| - 1;
      assert (a + b)[..|a| + n] == a + b[..n] && (a + b)[|a| + n] == b[n];
      FirstAppend(a, b[..n], p);
    }
  }

  lemma FirstSnoc<T>(s: seq<T>, i: nat, p: T -> bool)
    requires i < |s|
    ensures First(s[..i + 1], p)
      == if First(s[..i], p).Some? then First(s[..i], p) else if p(s[i]) then Some(s[i]) else None
  {
    assert s[..i + 1][..i] == s[..i];
  }

  lemma FirstPlus<T>(s: seq<T>, x: T, p: T -> bool)
    ensures First(s + [x], p) == if First(s, p).Some? then First(s, p) else if p(x) then Some(x) else None
  {
    assert (s + [x])[..|s|] == s && (s + [x])[..|s| + 1] == s + [x];
    FirstSnoc(s + [x], |s|, p);
  }

  function Reversed<T>(s: seq<T>): (r: seq<T>)
    ensures |r| == |s| && forall i | 0 <= i < |r| :: r[i] == s[|s| - 1 - i]
  {
    if s == [] then [] else Reversed(s[1..]) + [s[0]]
  }

  function OptionToSeq<T>(o: Option<T>): seq<T> {
    if o.Some? then [o.value] else []
  }

  /** `filter_map`. */
  function FilterMap<T, U>(s: seq<T>, f: T -> Option<U>): (r: seq<U>)
    ensures |r| <= |s|
  {
    if s == [] then [] else FilterMap(s[..|s| - 1], f) + OptionToSeq(f(s[|s| - 1]))
  }

  lemma FilterMapSnoc<T, U>(s: seq<T>, x: T, f: T -> Option<U>)
    ensures FilterMap(s + [x], f) == FilterMap(s, f) + OptionToSeq(f(x))
  {
    assert (s + [x])[..|s|] == s;
  }

  lemma FilterMapTake<T, U>(s: seq<T>, i: nat, f: T -> Option<U>)
    requires i < |s|
    ensures FilterMap(s[..i + 1], f) == FilterMap(s[..i], f) + OptionToSeq(f(s[i]))
  {
    assert s[..i + 1] == s[..i] + [s[i]];
    FilterMapSnoc(s[..i], s[i], f);
  }

  lemma FilterMapNone<T, U>(f: T -> Option<U>)
    ensures FilterMap([], f) == []
  {
  }

  lemma {:induction false} FilterMapAppend<T, U>(a: seq<T>, b: seq<T>, f: T -> Option<U>)
    ensures FilterMap(a + b, f) == FilterMap(a, f) + FilterMap(b, f)
  {
    hide FilterMap, OptionToSeq;
    if b == [] {
      assert a + b == a;
      FilterMapNone(f);
      assert FilterMap(a, f) + [] == FilterMap(a, f);
    } else {
      var n := |b| - 1;
      FilterMapAppend(a, b[..n], f);
      FilterMapSnoc(a + b[..n], b[n], f);
      FilterMapSnoc(b[..n], b[n], f);
      assert b == b[..n] + [b[n]];
      Regroup(a, b[..n], [b[n]]);
      Regroup(FilterMap(a, f), FilterMap(b[..n], f), OptionToSeq(f(b[n])));
    }
  }

  /** Picking alike from lists that look alike. */
  lemma {:induction false} FilterMapAlike<T, U>(a: seq<T>, b: seq<T>, f: T -> Option<U>, g: T -> Option<U>)
    requires |a| == |b| && forall i | 0 <= i < |a| :: f(a[i]) == g(b[i])
    ensures FilterMap(a, f) == FilterMap(b, g)
  {
    if a != [] {
      var n := |a| - 1;
      assert forall i | 0 <= i < n :: f(a[..n][i]) == f(a[i]) && g(b[..n][i]) == g(b[i]);
      FilterMapAlike(a[..n], b[..n], f, g);
    }
  }

  function Then<T, U>(o: Option<T>, g: T -> Option<U>): Option<U> {
    if o.Some? then g(o.value) else None
  }

  /** Picking from what was picked is picking once. */
  lemma {:induction false} FilterMapThen<S, T, U>(s: seq<S>, f: S -> Option<T>, g: T -> Option<U>, h: S -> Option<U>)
    requires forall i | 0 <= i < |s| :: h(s[i]) == Then(f(s[i]), g)
    ensures FilterMap(FilterMap(s, f), g) == FilterMap(s, h)
  {
    if s != [] {
      var n := |s| - 1;
      assert forall i | 0 <= i < n :: s[..n][i] == s[i];
      FilterMapThen(s[..n], f, g, h);
      var o, picked := f(s[n]), FilterMap(s[..n], f);
      assert FilterMap(s, f) == picked + OptionToSeq(o);
      assert FilterMap(s, h) == FilterMap(s[..n], h) + OptionToSeq(Then(o, g));
      hide FilterMap;
      if o.Some? {
        FilterMapSnoc(picked, o.value, g);
      } else {
        assert picked + OptionToSeq(o) == picked;
      }
    }
  }

  lemma {:induction false} FilterMapIn<T, U>(s: seq<T>, f: T -> Option<U>, i: nat)
    requires i < |s| && f(s[i]).Some?
    ensures f(s[i]).value in FilterMap(s, f)
  {
    if i < |s| - 1 {
      FilterMapIn(s[..|s| - 1], f, i);
    }
  }

  lemma {:induction false} FilterMapFrom<T, U>(s: seq<T>, f: T -> Option<U>)
    ensures forall y | y in FilterMap(s, f) :: exists i | 0 <= i < |s| :: f(s[i]) == Some(y)
  {
    if s != [] {
      var n := |s| - 1;
      FilterMapFrom(s[..n], f);
      forall y | y in FilterMap(s, f) ensures exists i | 0 <= i < |s| :: f(s[i]) == Some(y) {
        if y in FilterMap(s[..n], f) {
          var i :| 0 <= i < n && f(s[..n][i]) == Some(y);
          assert f(s[i]) == Some(y);
        } else {
          assert f(s[n]) == Some(y);
        }
      }
    }
  }

  /** Keeping as many as there were is keeping them all. */
  lemma {:induction false} KeepAll<T>(s: seq<T>, f: T -> Option<T>)
    requires |FilterMap(s, f)| == |s| && forall i | 0 <= i < |s| :: f(s[i]) in {None, Some(s[i])}
    ensures FilterMap(s, f) == s
  {
    hide FilterMap;
    if s == [] {
      FilterMapNone(f);
    } else {
      var n := |s| - 1;
      assert forall i | 0 <= i < n :: s[..n][i] == s[i];
      assert f(s[n]) in {None, Some(s[n])};
      assert s == s[..n] + [s[n]];
      FilterMapSnoc(s[..n], s[n], f);
      KeepAll(s[..n], f);
    }
  }

  lemma NothingFirst<T>(f: T -> Option<T>, p: T -> bool, q: T -> bool)
    ensures First(FilterMap([], f), p) == First([], q)
  {
  }

  /** The first that passes among those kept. */
  lemma {:induction false} FirstKept<T>(s: seq<T>, f: T -> Option<T>, p: T -> bool, q: T -> bool)
    requires forall i | 0 <= i < |s| :: f(s[i]) in {None, Some(s[i])} && (q(s[i]) <==> p(s[i]) && f(s[i]).Some?)
    ensures First(FilterMap(s, f), p) == First(s, q)
  {
    hide First, FilterMap;
    if s == [] {
      NothingFirst(f, p, q);
    } else {
      var n := |s| - 1;
      assert forall i | 0 <= i < n :: s[..n][i] == s[i];
      FirstKept(s[..n], f, p, q);
      assert f(s[n]) in {None, Some(s[n])};
      var kept := FilterMap(s[..n], f);
      assert s == s[..n] + [s[n]];
      FilterMapSnoc(s[..n], s[n], f);
      FirstPlus(s[..n], s[n], q);
      if f(s[n]).Some? {
        FirstPlus(kept, s[n], p);
      } else {
        assert kept + [] == kept;
      }
    }
  }

  /** When every one is picked, each is where it was. */
  lemma {:induction false} FilterMapAll<T, U>(s: seq<T>, f: T -> Option<U>)
    requires forall i | 0 <= i < |s| :: f(s[i]).Some?
    ensures |FilterMap(s, f)| == |s| && forall i | 0 <= i < |s| :: FilterMap(s, f)[i] == f(s[i]).value
  {
    if s != [] {
      var n := |s| - 1;
      assert forall i | 0 <= i < n :: s[..n][i] == s[i];
      FilterMapAll(s[..n], f);
    }
  }

  /** As many are picked as there were exactly when every one is. */
  lemma {:induction false} FilterMapLength<T, U>(s: seq<T>, f: T -> Option<U>)
    ensures |FilterMap(s, f)| == |s| <==> forall i | 0 <= i < |s| :: f(s[i]).Some?
  {
    if s != [] {
      var n := |s| - 1;
      assert forall i | 0 <= i < n :: s[..n][i] == s[i];
      FilterMapLength(s[..n], f);
    }
  }
}
