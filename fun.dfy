/**
 * The small functional helpers of `vd::fun` (sources/include/vd/fun.hpp):
 * `each`, `transform`, `best` and `find`.  Each is specified by a pure
 * function and implemented by the loop the C++ template runs.
 */
module Fun {
  import opened Wrappers

  /** `each`: the functor's effect, threaded as a state through the
      elements in container order (a left fold). */
  function Each<S, T>(s: seq<T>, st: S, step: (S, T) -> S): S
    decreases |s|
  {
    if s == [] then st else step(Each(s[..|s| - 1], st, step), s[|s| - 1])
  }

  /** The first element is visited first, on the initial state. */
  lemma {:induction false} EachVisitsFrontFirst<S, T>(s: seq<T>, st: S, step: (S, T) -> S)
    requires s != []
    ensures Each(s, st, step) == Each(s[1..], step(st, s[0]), step)
    decreases |s|
  {
    if |s| > 1 {
      EachVisitsFrontFirst(s[..|s| - 1], st, step);
      assert s[..|s| - 1][1..] == s[1..][..|s[1..]| - 1];
    }
  }

  /** Visiting `a + b` visits all of `a`, then all of `b`. */
  lemma {:induction false} EachAppend<S, T>(a: seq<T>, b: seq<T>, st: S, step: (S, T) -> S)
    ensures Each(a + b, st, step) == Each(b, Each(a, st, step), step)
    decreases |b|
  {
    if b == [] {
      assert a + b == a;
    } else {
      assert (a + b)[..|a + b| - 1] == a + b[..|b| - 1];
      EachAppend(a, b[..|b| - 1], st, step);
    }
  }

  /** The loop of `std::for_each`. */
  method EachLoop<S, T>(s: seq<T>, st: S, step: (S, T) -> S) returns (r: S)
    ensures r == Each(s, st, step)
  {
    r := st;
    for i := 0 to |s|
      invariant r == Each(s[..i], st, step)
    {
      assert s[..i + 1][..i] == s[..i];
      r := step(r, s[i]);
    }
    assert s[..|s|] == s;
  }

  /** `transform`: `push_back(transf(v))` for every `v`, in order. */
  function Transform<T, U>(s: seq<T>, transf: T -> U): seq<U>
  {
    Each(s, [], (res: seq<U>, v: T) => res + [transf(v)])
  }

  lemma {:induction false} TransformIsMap<T, U>(s: seq<T>, transf: T -> U)
    ensures |Transform(s, transf)| == |s|
    ensures forall i :: 0 <= i < |s| ==> Transform(s, transf)[i] == transf(s[i])
    decreases |s|
  {
    if s != [] {
      TransformIsMap(s[..|s| - 1], transf);
    }
  }

  /** The `transform` template body: reserve, then push back in order. */
  method TransformLoop<T, U>(s: seq<T>, transf: T -> U) returns (res: seq<U>)
    ensures |res| == |s|
    ensures forall i :: 0 <= i < |s| ==> res[i] == transf(s[i])
  {
    res := [];
    for i := 0 to |s|
      invariant |res| == i
      invariant forall k :: 0 <= k < i ==> res[k] == transf(s[k])
    {
      res := res + [transf(s[i])];
    }
  }

  /** The step of `best`: replace the best so far only on a strict `cmp`. */
  function BestStep<T, P>(cmp: (P, P) -> bool, prop: T -> P): (P, T) -> P
  {
    (bst: P, v: T) => if cmp(prop(v), bst) then prop(v) else bst
  }

  /** `best(def, cnt, cmp, prop)`. */
  function Best<T, P>(def: P, s: seq<T>, cmp: (P, P) -> bool, prop: T -> P): P
  {
    Each(s, def, BestStep(cmp, prop))
  }

  /** The loop of `best`: `bst` starts at `def`, `cur = prop(v)` replaces it when better. */
  method BestLoop<T, P>(def: P, s: seq<T>, cmp: (P, P) -> bool, prop: T -> P) returns (bst: P)
    ensures bst == Best(def, s, cmp, prop)
    ensures s == [] ==> bst == def
  {
    bst := def;
    for i := 0 to |s|
      invariant bst == Each(s[..i], def, BestStep(cmp, prop))
    {
      assert s[..i + 1][..i] == s[..i];
      var cur := prop(s[i]);
      if cmp(cur, bst) {
        bst := cur;
      }
    }
    assert s[..|s|] == s;
  }

  ghost predicate Irreflexive<P(!new)>(cmp: (P, P) -> bool) {
    forall x :: !cmp(x, x)
  }

  ghost predicate Transitive<P(!new)>(cmp: (P, P) -> bool) {
    forall x, y, z :: cmp(x, y) && cmp(y, z) ==> cmp(x, z)
  }

  /** The result is `def` or the `prop` of some element. */
  lemma {:induction false} BestIsCandidate<T, P>(def: P, s: seq<T>, cmp: (P, P) -> bool, prop: T -> P)
    ensures Best(def, s, cmp, prop) == def || exists k :: 0 <= k < |s| && Best(def, s, cmp, prop) == prop(s[k])
    decreases |s|
  {
    if s != [] {
      BestIsCandidate(def, s[..|s| - 1], cmp, prop);
      var b := Best(def, s[..|s| - 1], cmp, prop);
      if b != def && !cmp(prop(s[|s| - 1]), b) {
        var k :| 0 <= k < |s| - 1 && b == prop(s[..|s| - 1][k]);
        assert b == prop(s[k]);
      }
    }
  }

  /** For a strict order `cmp`, nothing -- neither `def` nor any element's
      `prop` -- compares better than the result. */
  lemma {:induction false} BestNoneBetter<T, P(!new)>(def: P, s: seq<T>, cmp: (P, P) -> bool, prop: T -> P)
    requires Irreflexive(cmp) && Transitive(cmp)
    ensures !cmp(def, Best(def, s, cmp, prop))
    ensures forall k :: 0 <= k < |s| ==> !cmp(prop(s[k]), Best(def, s, cmp, prop))
    decreases |s|
  {
    if s != [] {
      var init := s[..|s| - 1];
      BestNoneBetter(def, init, cmp, prop);
      var b := Best(def, init, cmp, prop);
      var x := prop(s[|s| - 1]);
      forall k | 0 <= k < |s| ensures !cmp(prop(s[k]), Best(def, s, cmp, prop)) {
        if k < |s| - 1 {
          assert prop(s[k]) == prop(init[k]);
        }
      }
    }
  }

  function Greater(a: int, b: int): bool { a > b }

  /** With `cmp = greater`, `best` is the maximum of `def` and all `prop(v)`;
      replacing only on strict improvement makes the EARLIEST maximal element
      the one that is taken: every element before it is strictly smaller. */
  lemma {:induction false} BestGreaterIsEarliestMax<T>(def: int, s: seq<T>, prop: T -> int)
    ensures var r := Best(def, s, Greater, prop);
      && r >= def
      && (forall k :: 0 <= k < |s| ==> prop(s[k]) <= r)
      && (r == def || exists k :: (0 <= k < |s| && r == prop(s[k]) && r > def &&
            forall j :: 0 <= j < k ==> prop(s[j]) < r))
    decreases |s|
  {
    if s != [] {
      var init := s[..|s| - 1];
      BestGreaterIsEarliestMax(def, init, prop);
      var b := Best(def, init, Greater, prop);
      var x := prop(s[|s| - 1]);
      var r := Best(def, s, Greater, prop);
      assert r == BestStep(Greater, prop)(b, s[|s| - 1]);
      assert r == if Greater(x, b) then x else b;
      forall k | 0 <= k < |s| ensures prop(s[k]) <= r {
        if k < |s| - 1 {
          assert prop(s[k]) == prop(init[k]);
        }
      }
      if x > b {
        assert r == x;
        assert forall j :: 0 <= j < |s| - 1 ==> prop(s[j]) < r by {
          forall j | 0 <= j < |s| - 1 ensures prop(s[j]) < r {
            assert prop(s[j]) == prop(init[j]);
          }
        }
      } else if b != def {
        var k :| 0 <= k < |init| && b == prop(init[k]) && b > def &&
                 forall j :: 0 <= j < k ==> prop(init[j]) < b;
        assert b == prop(s[k]);
        assert forall j :: 0 <= j < k ==> prop(s[j]) < r by {
          forall j | 0 <= j < k ensures prop(s[j]) < r {
            assert prop(s[j]) == prop(init[j]);
          }
        }
      }
    }
  }

  /** The position `find` stops at: the first element satisfying `f`. */
  function FirstIndex<T>(s: seq<T>, f: T -> bool): (r: Option<nat>)
    ensures r.Some? ==> r.value < |s| && f(s[r.value]) && forall j :: 0 <= j < r.value ==> !f(s[j])
    ensures r.None? <==> forall j :: 0 <= j < |s| ==> !f(s[j])
    decreases |s|
  {
    if s == [] then None
    else if f(s[0]) then Some(0)
    else match FirstIndex(s[1..], f)
      case None => None
      case Some(i) => Some(i + 1)
  }

  /** `find(cnt, def, f)`: the first element satisfying `f`, or `def`. */
  function Find<T>(s: seq<T>, def: T, f: T -> bool): (r: T)
    ensures (exists i :: 0 <= i < |s| && f(s[i])) ==>
      exists i :: 0 <= i < |s| && r == s[i] && f(s[i]) && forall j :: 0 <= j < i ==> !f(s[j])
    ensures (forall i :: 0 <= i < |s| ==> !f(s[i])) ==> r == def
  {
    match FirstIndex(s, f)
    case Some(i) => s[i]
    case None => def
  }

  /** The loop of `find`, which returns as soon as `f` holds. */
  method FindLoop<T>(s: seq<T>, def: T, f: T -> bool) returns (r: T)
    ensures r == Find(s, def, f)
  {
    for i := 0 to |s|
      invariant forall j :: 0 <= j < i ==> !f(s[j])
    {
      if f(s[i]) {
        assert FirstIndex(s, f) == Some(i);
        return s[i];
      }
    }
    return def;
  }
}
