/** Shared vocabulary of the model: optional values, results with an error
    message, planar points and a few sequence helpers used by every module. */
module Common {

  /** A value that may be absent (Rust `Option`). */
  datatype Option<+T> = None | Some(value: T)

  /** A computation that succeeded with a value or failed with a message
      (Rust `Result<T, String>` / `Result<T, JsValue>`). */
  datatype Result<+T> = Ok(value: T) | Err(message: string)

  /** A point on the canvas or on the map: `x`/`y` for canvas pixels,
      longitude/latitude for the map crate. */
  datatype Point = Point(x: real, y: real)

  /** Linear interpolation from `a` to `b` at parameter `t`. */
  function Lerp(a: real, b: real, t: real): (r: real)
    ensures t == 0.0 ==> r == a
    ensures t == 1.0 ==> r == b
    ensures a <= b && 0.0 <= t <= 1.0 ==> a <= r <= b
    ensures b <= a && 0.0 <= t <= 1.0 ==> b <= r <= a
  {
    var d := b - a;
    LerpBounds(a, d, t);
    assert a + d == b;
    a + d * t
  }

  /** The interpolated value as the source computes it. */
  lemma LerpValue(a: real, b: real, t: real)
    ensures Lerp(a, b, t) == a + (b - a) * t
  {
  }

  /** The interpolation bounds, with the difference `d` named so that the
      solver sees a single product. */
  lemma LerpBounds(a: real, d: real, t: real)
    ensures t == 0.0 ==> a + d * t == a
    ensures t == 1.0 ==> a + d * t == a + d
    ensures 0.0 <= d && 0.0 <= t <= 1.0 ==> a <= a + d * t <= a + d
    ensures d <= 0.0 && 0.0 <= t <= 1.0 ==> a + d <= a + d * t <= a
  {
    ScaleWithinUnit(d, t);
  }

  /** Scaling by a factor in [0,1] keeps a quantity between 0 and itself. */
  lemma ScaleWithinUnit(d: real, t: real)
    ensures 0.0 <= t <= 1.0 && 0.0 <= d ==> 0.0 <= d * t <= d
    ensures 0.0 <= t <= 1.0 && d <= 0.0 ==> d <= d * t <= 0.0
  {
    if t < 0.0 || 1.0 < t {
    } else if 0.0 <= d {
      assert d * t <= d * 1.0;
    } else {
      assert d * 1.0 <= d * t;
    }
  }

  /** A stream of random values, read from a cursor on: the model's
      stand-in for `Math::random`. */
  ghost predicate UnitStream(rng: nat -> real) {
    forall i :: 0.0 <= rng(i) < 1.0
  }

  function Abs(x: real): (r: real)
    ensures 0.0 <= r && (r == x || r == -x)
  {
    if x < 0.0 then -x else x
  }

  /** Number of elements of `s` satisfying `p`. */
  function CountWhere<T>(s: seq<T>, p: T -> bool): (n: nat)
    ensures n <= |s|
  {
    if |s| == 0 then 0
    else CountWhere(s[..|s| - 1], p) + (if p(s[|s| - 1]) then 1 else 0)
  }

  /** All elements are counted exactly when all satisfy `p`, and none are
      counted exactly when none do. */
  lemma {:induction false} CountWhereExtremes<T>(s: seq<T>, p: T -> bool)
    ensures CountWhere(s, p) == |s| <==> forall i :: 0 <= i < |s| ==> p(s[i])
    ensures CountWhere(s, p) == 0 <==> forall i :: 0 <= i < |s| ==> !p(s[i])
    decreases |s|
  {
    if |s| > 0 {
      var s' := s[..|s| - 1];
      CountWhereExtremes(s', p);
      assert forall i :: 0 <= i < |s'| ==> s'[i] == s[i];
    }
  }

  /** A sequence in which exactly the element at `k` satisfies `p` counts
      one. */
  lemma ExactlyOne<T>(m: seq<T>, p: T -> bool, k: nat)
    requires k < |m| && p(m[k])
    requires forall i :: 0 <= i < |m| && i != k ==> !p(m[i])
    ensures CountWhere(m, p) == 1
  {
    var a, b, c := m[..k], m[k..k + 1], m[k + 1..];
    ThreeSlices(m, k, k + 1);
    forall i | 0 <= i < |a|
      ensures !p(a[i])
    {
      assert a[i] == m[i];
    }
    forall i | 0 <= i < |c|
      ensures !p(c[i])
    {
      assert c[i] == m[k + 1 + i];
    }
    NoneCounted(a, p);
    NoneCounted(c, p);
    assert CountWhere(b, p) == 1 by {
      assert b[..0] == [] && b[0] == m[k];
    }
    CountWhereAppend(a, b, p);
    CountWhereAppend(a + b, c, p);
  }

  /** No element satisfies `p`, so none is counted. */
  lemma NoneCounted<T>(s: seq<T>, p: T -> bool)
    requires forall i :: 0 <= i < |s| ==> !p(s[i])
    ensures CountWhere(s, p) == 0
  {
    CountWhereExtremes(s, p);
  }

  /** Counting distributes over concatenation. */
  lemma {:induction false} CountWhereAppend<T>(a: seq<T>, b: seq<T>, p: T -> bool)
    ensures CountWhere(a + b, p) == CountWhere(a, p) + CountWhere(b, p)
    decreases |b|
  {
    if |b| == 0 {
      assert a + b == a;
    } else {
      assert (a + b)[..|a + b| - 1] == a + b[..|b| - 1];
      CountWhereAppend(a, b[..|b| - 1], p);
    }
  }

  /** The elements of `s` that satisfy `p`, in their original order. */
  function Filter<T>(s: seq<T>, p: T -> bool): (r: seq<T>)
    ensures |r| == CountWhere(s, p)
  {
    if |s| == 0 then []
    else Filter(s[..|s| - 1], p) + (if p(s[|s| - 1]) then [s[|s| - 1]] else [])
  }

  /** What survives the filter: exactly the elements of `s` that satisfy
      `p`. */
  lemma {:induction false} FilterHas<T>(s: seq<T>, p: T -> bool)
    ensures forall i :: 0 <= i < |Filter(s, p)| ==> p(Filter(s, p)[i]) && Filter(s, p)[i] in s
    ensures forall x :: x in s && p(x) ==> x in Filter(s, p)
    decreases |s|
  {
    if |s| > 0 {
      var init := s[..|s| - 1];
      FilterHas(init, p);
      assert forall x :: x in s ==> x in init || x == s[|s| - 1];
    }
  }

  /** Filtering distributes over concatenation. */
  lemma {:induction false} FilterAppend<T>(a: seq<T>, b: seq<T>, p: T -> bool)
    ensures Filter(a + b, p) == Filter(a, p) + Filter(b, p)
    decreases |b|
  {
    if |b| == 0 {
      assert a + b == a;
    } else {
      assert (a + b)[..|a + b| - 1] == a + b[..|b| - 1];
      FilterAppend(a, b[..|b| - 1], p);
    }
  }

  /** Filtering keeps a sequence whose every element qualifies. */
  lemma {:induction false} FilterKeepsAll<T>(s: seq<T>, p: T -> bool)
    requires forall i :: 0 <= i < |s| ==> p(s[i])
    ensures Filter(s, p) == s
    decreases |s|
  {
    if |s| > 0 {
      FilterKeepsAll(s[..|s| - 1], p);
    }
  }

  /** Filtering empties a sequence none of whose elements qualifies. */
  lemma FilterDropsAll<T>(s: seq<T>, p: T -> bool)
    requires forall i :: 0 <= i < |s| ==> !p(s[i])
    ensures Filter(s, p) == []
  {
    CountWhereExtremes(s, p);
  }

  /** Filtering a sequence whose qualifying elements form one block
      `[lo, hi)` gives exactly that block. */
  lemma BlockFilter<T>(s: seq<T>, p: T -> bool, lo: nat, hi: nat)
    requires lo <= hi <= |s|
    requires forall i :: 0 <= i < |s| ==> (p(s[i]) <==> lo <= i < hi)
    ensures Filter(s, p) == s[lo..hi]
  {
    BlockBefore(s, p, lo, hi);
    BlockInside(s, p, lo, hi);
    BlockAfter(s, p, lo, hi);
    FilterAround(s[..lo], s[lo..hi], s[hi..], p);
    ThreeSlices(s, lo, hi);
  }

  lemma ThreeSlices<T>(s: seq<T>, lo: nat, hi: nat)
    requires lo <= hi <= |s|
    ensures s == s[..lo] + s[lo..hi] + s[hi..]
  {
    assert s[..hi] == s[..lo] + s[lo..hi];
    assert s == s[..hi] + s[hi..];
  }

  lemma BlockBefore<T>(s: seq<T>, p: T -> bool, lo: nat, hi: nat)
    requires lo <= hi <= |s|
    requires forall i :: 0 <= i < |s| ==> (p(s[i]) <==> lo <= i < hi)
    ensures Filter(s[..lo], p) == []
  {
    var before := s[..lo];
    forall i | 0 <= i < |before| ensures !p(before[i]) {
      assert before[i] == s[i];
    }
    FilterDropsAll(before, p);
  }

  lemma BlockInside<T>(s: seq<T>, p: T -> bool, lo: nat, hi: nat)
    requires lo <= hi <= |s|
    requires forall i :: 0 <= i < |s| ==> (p(s[i]) <==> lo <= i < hi)
    ensures Filter(s[lo..hi], p) == s[lo..hi]
  {
    var block := s[lo..hi];
    forall i | 0 <= i < |block| ensures p(block[i]) {
      assert block[i] == s[lo + i];
    }
    FilterKeepsAll(block, p);
  }

  lemma BlockAfter<T>(s: seq<T>, p: T -> bool, lo: nat, hi: nat)
    requires lo <= hi <= |s|
    requires forall i :: 0 <= i < |s| ==> (p(s[i]) <==> lo <= i < hi)
    ensures Filter(s[hi..], p) == []
  {
    var after := s[hi..];
    forall i | 0 <= i < |after| ensures !p(after[i]) {
      assert after[i] == s[hi + i];
    }
    FilterDropsAll(after, p);
  }

  lemma FilterAround<T>(a: seq<T>, b: seq<T>, c: seq<T>, p: T -> bool)
    requires Filter(a, p) == [] && Filter(b, p) == b && Filter(c, p) == []
    ensures Filter(a + b + c, p) == b
  {
    FilterAppend(a, b, p);
    FilterAppend(a + b, c, p);
  }

  /** The `Some` values `f` gives on the elements of `s`, in order: Rust's
      `filter_map`. */
  function FilterMap<T, U>(s: seq<T>, f: T -> Option<U>): (r: seq<U>)
    ensures |r| <= |s|
  {
    if |s| == 0 then []
    else
      var last := f(s[|s| - 1]);
      FilterMap(s[..|s| - 1], f) + (if last.Some? then [last.value] else [])
  }

  /** Nothing comes out exactly when `f` gives `None` everywhere. */
  lemma {:induction false} FilterMapEmpty<T, U>(s: seq<T>, f: T -> Option<U>)
    ensures |FilterMap(s, f)| == 0 <==> forall i :: 0 <= i < |s| ==> f(s[i]).None?
    decreases |s|
  {
    if |s| > 0 {
      var init := s[..|s| - 1];
      FilterMapEmpty(init, f);
      assert forall i :: 0 <= i < |init| ==> init[i] == s[i];
    }
  }

  /** When `f` succeeds everywhere, `filter_map` is `map`. */
  lemma {:induction false} FilterMapAll<T, U>(s: seq<T>, f: T -> Option<U>, r: seq<U>)
    requires |s| == |r|
    requires forall i :: 0 <= i < |s| ==> f(s[i]) == Some(r[i])
    ensures FilterMap(s, f) == r
    decreases |s|
  {
    if |s| > 0 {
      FilterMapAll(s[..|s| - 1], f, r[..|r| - 1]);
      assert r == r[..|r| - 1] + [r[|r| - 1]];
    }
  }

  /** Every value that comes out is one `f` gave on some element. */
  lemma {:induction false} FilterMapFrom<T, U>(s: seq<T>, f: T -> Option<U>, u: U)
    requires u in FilterMap(s, f)
    ensures exists i :: 0 <= i < |s| && f(s[i]) == Some(u)
    decreases |s|
  {
    var init := s[..|s| - 1];
    var last := f(s[|s| - 1]);
    if u in FilterMap(init, f) {
      FilterMapFrom(init, f, u);
      var i :| 0 <= i < |init| && f(init[i]) == Some(u);
      assert s[i] == init[i];
    } else {
      assert last == Some(u);
    }
  }
}
