/** Sequence operations the graph tables are built from: flattening,
    `itertools.combinations(_, 2)`, `itertools.pairwise`, and the
    two-way edge index that `torch.cat` with a 180-degree `rot90` makes.
    An edge index tensor of shape 2 x n is a sequence of n pairs. */
module PairSeqs {

  /** Concatenation of a sequence of sequences, in order. */
  function Flatten<T>(xss: seq<seq<T>>): seq<T> {
    if |xss| == 0 then [] else xss[0] + Flatten(xss[1..])
  }

  /** An element of the flattening is an element of one of the parts. */
  lemma {:induction false} FlattenHas<T>(xss: seq<seq<T>>, x: T)
    ensures x in Flatten(xss) <==> exists i :: 0 <= i < |xss| && x in xss[i]
  {
    if |xss| > 0 {
      FlattenHas(xss[1..], x);
      if x in Flatten(xss[1..]) {
        var i :| 0 <= i < |xss[1..]| && x in xss[1..][i];
        assert x in xss[i + 1];
      }
      forall i | 1 <= i < |xss| && x in xss[i]
        ensures x in Flatten(xss[1..])
      {
        assert xss[1..][i - 1] == xss[i];
      }
    }
  }

  /** Flattening eight parts. */
  lemma FlattenEight<T>(a: seq<T>, b: seq<T>, c: seq<T>, d: seq<T>, e: seq<T>, f: seq<T>, g: seq<T>, h: seq<T>)
    ensures Flatten([a, b, c, d, e, f, g, h]) == a + (b + (c + (d + (e + (f + (g + h))))))
  {
    var xss := [a, b, c, d, e, f, g, h];
    assert xss[1..] == [b, c, d, e, f, g, h];
    assert xss[2..] == [c, d, e, f, g, h];
    assert xss[3..] == [d, e, f, g, h];
    assert xss[4..] == [e, f, g, h];
    assert xss[5..] == [f, g, h];
    assert xss[6..] == [g, h];
    assert xss[7..] == [h];
    assert xss[8..] == [];
    assert Flatten(xss[8..]) == [];
    assert Flatten(xss[7..]) == h + Flatten(xss[8..]);
    assert Flatten(xss[6..]) == g + Flatten(xss[7..]);
    assert Flatten(xss[5..]) == f + Flatten(xss[6..]);
    assert Flatten(xss[4..]) == e + Flatten(xss[5..]);
    assert Flatten(xss[3..]) == d + Flatten(xss[4..]);
    assert Flatten(xss[2..]) == c + Flatten(xss[3..]);
    assert Flatten(xss[1..]) == b + Flatten(xss[2..]);
    assert Flatten(xss) == a + Flatten(xss[1..]);
  }

  // ---------------------------------------------------------------------
  // Combinations and neighbour pairs

  /** `itertools.combinations(xs, 2)`: the pairs at positions i < j, first
      position slowest. */
  function Combinations2<T>(xs: seq<T>): seq<(T, T)> {
    if |xs| == 0 then []
    else seq(|xs| - 1, j requires 0 <= j < |xs| - 1 => (xs[0], xs[j + 1])) + Combinations2(xs[1..])
  }

  /** There are n (n - 1) / 2 of them. */
  lemma {:induction false} Combinations2Count<T>(xs: seq<T>)
    ensures 2 * |Combinations2(xs)| == |xs| * (|xs| - 1)
  {
    if |xs| > 0 {
      Combinations2Count(xs[1..]);
    }
  }

  /** The combinations are exactly the pairs taken in position order. */
  lemma {:induction false} Combinations2Has<T>(xs: seq<T>, p: (T, T))
    ensures p in Combinations2(xs) <==> exists i, j :: 0 <= i < j < |xs| && p == (xs[i], xs[j])
  {
    if |xs| > 0 {
      var head := seq(|xs| - 1, j requires 0 <= j < |xs| - 1 => (xs[0], xs[j + 1]));
      var tail := xs[1..];
      assert Combinations2(xs) == head + Combinations2(tail);
      Combinations2Has(tail, p);
      if p in head {
        var j :| 0 <= j < |head| && head[j] == p;
        assert p == (xs[0], xs[j + 1]);
      } else if p in Combinations2(tail) {
        var i, j :| 0 <= i < j < |tail| && p == (tail[i], tail[j]);
        assert p == (xs[i + 1], xs[j + 1]);
      }
      forall i, j | 0 <= i < j < |xs| && p == (xs[i], xs[j])
        ensures p in Combinations2(xs)
      {
        if i == 0 {
          assert head[j - 1] == p;
        } else {
          assert p == (tail[i - 1], tail[j - 1]);
        }
      }
    }
  }

  /** The combinations of two and of three elements. */
  lemma CombinationsSmall<T>(x: T, y: T, z: T)
    ensures Combinations2([x, y]) == [(x, y)]
    ensures Combinations2([x, y, z]) == [(x, y), (x, z), (y, z)]
  {
    assert [x, y][1..] == [y];
    assert [x, y, z][1..] == [y, z];
    assert [y, z][1..] == [z];
    assert [z][1..] == [];
    assert [y][1..] == [];
    Combinations2Count([y]);
    Combinations2Count([z]);
    assert Combinations2([x, y]) == [(x, y)] + Combinations2([y]);
    assert Combinations2([y, z]) == [(y, z)] + Combinations2([z]);
    assert Combinations2([x, y, z]) == [(x, y), (x, z)] + Combinations2([y, z]);
  }

  /** The combinations of every group, one group after another. */
  function AllCombinations<T>(groups: seq<seq<T>>): seq<(T, T)> {
    if |groups| == 0 then [] else Combinations2(groups[0]) + AllCombinations(groups[1..])
  }

  /** A pair is among them exactly when one group holds its two elements
      in that order. */
  lemma {:induction false} AllCombinationsHas<T>(groups: seq<seq<T>>, p: (T, T))
    ensures p in AllCombinations(groups) <==>
              exists g, i, j :: 0 <= g < |groups| && 0 <= i < j < |groups[g]| && p == (groups[g][i], groups[g][j])
  {
    if |groups| > 0 {
      var rest := groups[1..];
      AllCombinationsHas(rest, p);
      Combinations2Has(groups[0], p);
      if p in AllCombinations(rest) {
        var g, i, j :| 0 <= g < |rest| && 0 <= i < j < |rest[g]| && p == (rest[g][i], rest[g][j]);
        assert groups[g + 1] == rest[g];
      }
      forall g, i, j | 0 < g < |groups| && 0 <= i < j < |groups[g]| && p == (groups[g][i], groups[g][j])
        ensures p in AllCombinations(rest)
      {
        assert rest[g - 1] == groups[g];
      }
    }
  }

  /** Taking the combinations group by group distributes over
      concatenation of the groups. */
  lemma {:induction false} AllCombinationsAppend<T>(xss: seq<seq<T>>, yss: seq<seq<T>>)
    ensures AllCombinations(xss + yss) == AllCombinations(xss) + AllCombinations(yss)
  {
    if |xss| == 0 {
      assert xss + yss == yss;
    } else {
      assert (xss + yss)[1..] == xss[1..] + yss;
      AllCombinationsAppend(xss[1..], yss);
    }
  }

  /** The combinations of four groups. */
  lemma AllCombinationsFour<T>(a: seq<T>, b: seq<T>, c: seq<T>, d: seq<T>)
    ensures AllCombinations([a, b, c, d]) ==
      Combinations2(a) + (Combinations2(b) + (Combinations2(c) + Combinations2(d)))
  {
    var xss := [a, b, c, d];
    assert xss[1..] == [b, c, d];
    assert xss[2..] == [c, d];
    assert xss[3..] == [d];
    assert xss[4..] == [];
    assert AllCombinations(xss[4..]) == [];
    assert AllCombinations(xss[3..]) == Combinations2(d) + AllCombinations(xss[4..]);
    assert AllCombinations(xss[2..]) == Combinations2(c) + AllCombinations(xss[3..]);
    assert AllCombinations(xss[1..]) == Combinations2(b) + AllCombinations(xss[2..]);
    assert AllCombinations(xss) == Combinations2(a) + AllCombinations(xss[1..]);
  }

  /** `itertools.pairwise(xs)`: each element with its successor. */
  function Pairwise<T>(xs: seq<T>): (r: seq<(T, T)>)
    ensures |r| == if |xs| == 0 then 0 else |xs| - 1
    ensures forall i :: 0 <= i < |r| ==> r[i] == (xs[i], xs[i + 1])
  {
    if |xs| < 2 then [] else [(xs[0], xs[1])] + Pairwise(xs[1..])
  }

  /** The neighbour pairs of three and of four elements. */
  lemma PairwiseSmall<T>(w: T, x: T, y: T, z: T)
    ensures Pairwise([w, x, y]) == [(w, x), (x, y)]
    ensures Pairwise([w, x, y, z]) == [(w, x), (x, y), (y, z)]
  {
    assert [w, x, y, z][1..] == [x, y, z];
    assert [w, x, y][1..] == [x, y];
    assert [x, y, z][1..] == [y, z];
    assert [x, y][1..] == [y];
    assert [y, z][1..] == [z];
    assert Pairwise([y]) == [] && Pairwise([z]) == [];
    assert Pairwise([y, z]) == [(y, z)] + Pairwise([z]);
    assert Pairwise([x, y, z]) == [(x, y)] + Pairwise([y, z]);
    assert Pairwise([x, y]) == [(x, y)] + Pairwise([y]);
  }

  /** The neighbour pairs of every row, one row after another. */
  function AllPairwise<T>(rows: seq<seq<T>>): seq<(T, T)> {
    if |rows| == 0 then [] else Pairwise(rows[0]) + AllPairwise(rows[1..])
  }

  /** A pair is among them exactly when one row holds its two elements
      next to each other. */
  lemma {:induction false} AllPairwiseHas<T>(rows: seq<seq<T>>, p: (T, T))
    ensures p in AllPairwise(rows) <==>
              exists g, i :: 0 <= g < |rows| && 0 <= i && i + 1 < |rows[g]| && p == (rows[g][i], rows[g][i + 1])
  {
    if |rows| > 0 {
      var rest := rows[1..];
      AllPairwiseHas(rest, p);
      var first := Pairwise(rows[0]);
      if p in first {
        var k :| 0 <= k < |first| && first[k] == p;
        assert p == (rows[0][k], rows[0][k + 1]);
      }
      forall i | 0 <= i && i + 1 < |rows[0]| && p == (rows[0][i], rows[0][i + 1])
        ensures p in first
      {
        assert first[i] == p;
      }
      if p in AllPairwise(rest) {
        var g, i :| 0 <= g < |rest| && 0 <= i && i + 1 < |rest[g]| && p == (rest[g][i], rest[g][i + 1]);
        assert rows[g + 1] == rest[g];
      }
      forall g, i | 0 < g < |rows| && 0 <= i && i + 1 < |rows[g]| && p == (rows[g][i], rows[g][i + 1])
        ensures p in AllPairwise(rest)
      {
        assert rest[g - 1] == rows[g];
      }
    }
  }

  /** The neighbour pairs of six rows. */
  lemma AllPairwiseSix<T>(a: seq<T>, b: seq<T>, c: seq<T>, d: seq<T>, e: seq<T>, f: seq<T>)
    ensures AllPairwise([a, b, c, d, e, f]) ==
      Pairwise(a) + (Pairwise(b) + (Pairwise(c) + (Pairwise(d) + (Pairwise(e) + Pairwise(f)))))
  {
    var xss := [a, b, c, d, e, f];
    assert xss[1..] == [b, c, d, e, f];
    assert xss[2..] == [c, d, e, f];
    assert xss[3..] == [d, e, f];
    assert xss[4..] == [e, f];
    assert xss[5..] == [f];
    assert xss[6..] == [];
    assert AllPairwise(xss[6..]) == [];
    assert AllPairwise(xss[5..]) == Pairwise(f) + AllPairwise(xss[6..]);
    assert AllPairwise(xss[4..]) == Pairwise(e) + AllPairwise(xss[5..]);
    assert AllPairwise(xss[3..]) == Pairwise(d) + AllPairwise(xss[4..]);
    assert AllPairwise(xss[2..]) == Pairwise(c) + AllPairwise(xss[3..]);
    assert AllPairwise(xss[1..]) == Pairwise(b) + AllPairwise(xss[2..]);
    assert AllPairwise(xss) == Pairwise(a) + AllPairwise(xss[1..]);
  }

  // ---------------------------------------------------------------------
  // Two-way edge indices

  /** An edge the other way round. */
  function Swap<T>(p: (T, T)): (T, T) {
    (p.1, p.0)
  }

  /** `edge_index.rot90(2)`: turning a 2 x n matrix half a turn reverses
      its columns and exchanges its rows, so each edge is reversed and the
      last comes first. */
  function Rotated<T>(es: seq<(T, T)>): (r: seq<(T, T)>)
    ensures |r| == |es|
    ensures forall j :: 0 <= j < |es| ==> r[j] == Swap(es[|es| - 1 - j])
  {
    if |es| == 0 then [] else Rotated(es[1..]) + [Swap(es[0])]
  }

  /** `bidir_edge_index`: the edges followed by the rotated copy. */
  function Bidir<T>(es: seq<(T, T)>): (r: seq<(T, T)>) {
    es + Rotated(es)
  }

  /** An edge is in the two-way index exactly when it or its reverse is
      among the edges. */
  lemma BidirHas<T>(es: seq<(T, T)>, p: (T, T))
    ensures p in Bidir(es) <==> p in es || Swap(p) in es
  {
    var rot := Rotated(es);
    if p in rot {
      var j :| 0 <= j < |rot| && rot[j] == p;
      assert Swap(p) == es[|es| - 1 - j];
    }
    if Swap(p) in es {
      var k :| 0 <= k < |es| && es[k] == Swap(p);
      assert rot[|es| - 1 - k] == p;
    }
  }

  /** The two-way index is symmetric. */
  lemma BidirSymmetric<T>(es: seq<(T, T)>, p: (T, T))
    ensures p in Bidir(es) <==> Swap(p) in Bidir(es)
  {
    BidirHas(es, p);
    BidirHas(es, Swap(p));
    assert Swap(Swap(p)) == p;
  }

  /** `weights_from_idx`: one weight per edge, all equal. */
  function Weights<T>(es: seq<(T, T)>, value: nat): (r: seq<nat>)
    ensures |r| == |es|
    ensures forall i :: 0 <= i < |r| ==> r[i] == value
  {
    seq(|es|, _ => value)
  }
}
