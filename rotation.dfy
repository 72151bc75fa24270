/** Combining the root orientations of a cluster into one. The spherical
    interpolation is the host library's and is a parameter here; what is
    modelled is which rotations are blended, in which order and with which
    weights. */
module Rotation {
  import opened Objects
  import Yaw

  /** Similarity of `q` to the identity orientation: |dot(identity, q)|.
      The identity quaternion is (0, 0, 0, 1), so the dot product is `w`. */
  function Similarity(q: Quat): real {
    Yaw.Abs(q.w)
  }

  ghost predicate SortedBySimilarity(s: seq<Quat>) {
    forall i, j :: 0 <= i < j < |s| ==> Similarity(s[i]) <= Similarity(s[j])
  }

  /** Inserts `q` before the first element that is at least as similar. */
  function Insert(q: Quat, s: seq<Quat>): (r: seq<Quat>)
    requires SortedBySimilarity(s)
    ensures SortedBySimilarity(r)
    ensures multiset(r) == multiset(s) + multiset{q}
    ensures |r| == |s| + 1
  {
    if s == [] || Similarity(q) <= Similarity(s[0]) then
      ConsSorted(q, s);
      [q] + s
    else
      SortedTail(s);
      var rest := Insert(q, s[1..]);
      assert s == [s[0]] + s[1..];
      BelowAll(s, q, rest);
      ConsSorted(s[0], rest);
      [s[0]] + rest
  }

  /** An element no more similar than the head of a sorted sequence can
      be put in front of it. */
  lemma ConsSorted(h: Quat, t: seq<Quat>)
    requires SortedBySimilarity(t)
    requires t == [] || Similarity(h) <= Similarity(t[0])
    ensures SortedBySimilarity([h] + t)
  {
    var r := [h] + t;
    forall i, j | 0 <= i < j < |r| ensures Similarity(r[i]) <= Similarity(r[j]) {
      if i == 0 {
        assert r[j] == t[j - 1];
        assert Similarity(t[0]) <= Similarity(t[j - 1]);
      } else {
        assert r[i] == t[i - 1] && r[j] == t[j - 1];
      }
    }
  }

  /** The head of a sorted `s` is no more similar than anything of its
      tail with `q` added, when `q` is more similar than the head. */
  lemma BelowAll(s: seq<Quat>, q: Quat, rest: seq<Quat>)
    requires SortedBySimilarity(s) && s != [] && Similarity(s[0]) < Similarity(q)
    requires multiset(rest) == multiset(s[1..]) + multiset{q} && rest != []
    ensures Similarity(s[0]) <= Similarity(rest[0])
  {
    assert rest[0] in multiset(rest);
    if rest[0] != q {
      assert rest[0] in multiset(s[1..]);
      var k :| 0 <= k < |s[1..]| && s[1..][k] == rest[0];
      assert s[1..][k] == s[k + 1];
    }
  }

  /** Orders rotations by ascending similarity to the identity, as the
      reconciler's sort does. */
  function SortBySimilarity(s: seq<Quat>): (r: seq<Quat>)
    ensures SortedBySimilarity(r)
    ensures multiset(r) == multiset(s)
    ensures |r| == |s|
  {
    if s == [] then []
    else
      assert s == [s[0]] + s[1..];
      Insert(s[0], SortBySimilarity(s[1..]))
  }

  /** No two different rotations of `s` are equally similar to the identity. */
  ghost predicate DistinctSimilarities(m: multiset<Quat>) {
    forall p, q :: p in m && q in m && Similarity(p) == Similarity(q) ==> p == q
  }

  /** The head of a sorted sequence is at most as similar as any element. */
  lemma SortedHeadIsLeast(s: seq<Quat>, q: Quat)
    requires SortedBySimilarity(s) && q in multiset(s)
    ensures Similarity(s[0]) <= Similarity(q)
  {
    var k :| 0 <= k < |s| && s[k] == q;
  }

  lemma SortedTail(s: seq<Quat>)
    requires SortedBySimilarity(s) && s != []
    ensures SortedBySimilarity(s[1..])
  {
    forall i, j | 0 <= i < j < |s| - 1 ensures Similarity(s[1..][i]) <= Similarity(s[1..][j]) {
      assert s[1..][i] == s[i + 1] && s[1..][j] == s[j + 1];
    }
  }

  /** Removing elements keeps similarities distinct. */
  lemma DistinctSub(m: multiset<Quat>, n: multiset<Quat>)
    requires DistinctSimilarities(m) && n <= m
    ensures DistinctSimilarities(n)
  {
    forall p, q | p in n && q in n && Similarity(p) == Similarity(q) ensures p == q {
      assert p in m && q in m;
    }
  }

  /** A sequence sorted by similarity is determined by its elements once
      similarities are distinct: any order of input gives the same output. */
  lemma {:induction false} SortedIsUnique(s: seq<Quat>, t: seq<Quat>)
    requires SortedBySimilarity(s) && SortedBySimilarity(t)
    requires multiset(s) == multiset(t)
    requires DistinctSimilarities(multiset(s))
    ensures s == t
  {
    SameLength(s, t);
    if s != [] {
      SameHead(s, t);
      SameTail(s, t);
      assert SortedBySimilarity(s[1..]) && SortedBySimilarity(t[1..]) by {
        SortedTail(s);
        SortedTail(t);
      }
      assert DistinctSimilarities(multiset(s[1..])) by {
        DistinctSub(multiset(s), multiset(s[1..]));
      }
      SortedIsUnique(s[1..], t[1..]);
      ConsEqual(s, t);
    }
  }

  lemma ConsEqual(s: seq<Quat>, t: seq<Quat>)
    requires s != [] && t != [] && s[0] == t[0] && s[1..] == t[1..]
    ensures s == t
  {
    assert s == [s[0]] + s[1..] && t == [t[0]] + t[1..];
  }

  /** Two sorted sequences with the same distinct-similarity elements start
      with the same element. */
  lemma SameHead(s: seq<Quat>, t: seq<Quat>)
    requires SortedBySimilarity(s) && SortedBySimilarity(t) && s != [] && t != []
    requires multiset(s) == multiset(t)
    requires DistinctSimilarities(multiset(s))
    ensures s[0] == t[0]
  {
    assert s[0] in multiset(s) && t[0] in multiset(t);
    SortedHeadIsLeast(s, t[0]);
    SortedHeadIsLeast(t, s[0]);
  }

  /** Removing equal heads leaves equal multisets. */
  lemma SameTail(s: seq<Quat>, t: seq<Quat>)
    requires s != [] && t != [] && s[0] == t[0]
    requires multiset(s) == multiset(t)
    ensures multiset(s[1..]) == multiset(t[1..])
    ensures multiset(s[1..]) <= multiset(s)
  {
    assert s == [s[0]] + s[1..];
    assert t == [t[0]] + t[1..];
    assert multiset(s[1..]) == multiset(s) - multiset{s[0]};
    assert multiset(t[1..]) == multiset(t) - multiset{t[0]};
  }

  lemma SameLength(s: seq<Quat>, t: seq<Quat>)
    requires multiset(s) == multiset(t)
    ensures |s| == |t|
  {
    assert |s| == |multiset(s)| && |t| == |multiset(t)|;
  }

  /** The running blend over the first `n` sorted rotations: start from the
      least identity-like one and pull toward the i-th with weight 1/(i+1). */
  function Blend(sorted: seq<Quat>, slerp: (Quat, Quat, real) -> Quat, n: nat): Quat
    requires 1 <= n <= |sorted|
  {
    if n == 1 then sorted[0]
    else slerp(Blend(sorted, slerp, n - 1), sorted[n - 1], 1.0 / (n as real))
  }

  /** The orientation a cluster agrees on: a midpoint interpolation for two
      rotations, otherwise the blend over the sorted rotations. */
  function Combine(rots: seq<Quat>, slerp: (Quat, Quat, real) -> Quat): Quat
    requires |rots| >= 1
  {
    if |rots| == 2 then slerp(rots[0], rots[1], 0.5)
    else Blend(SortBySimilarity(rots), slerp, |rots|)
  }

  /** With three or more rotations of distinct similarity, the combined
      orientation does not depend on the order the rotations come in. */
  lemma CombineOrderIndependent(rots: seq<Quat>, other: seq<Quat>, slerp: (Quat, Quat, real) -> Quat)
    requires |rots| >= 3
    requires multiset(rots) == multiset(other)
    requires DistinctSimilarities(multiset(rots))
    ensures |other| == |rots|
    ensures Combine(rots, slerp) == Combine(other, slerp)
  {
    assert |rots| == |multiset(rots)| == |other|;
    SortedIsUnique(SortBySimilarity(rots), SortBySimilarity(other));
  }

  /** The loop of the reconciler that combines the rotations. */
  method CombineRotations(rots: seq<Quat>, slerp: (Quat, Quat, real) -> Quat) returns (rotation: Quat)
    requires |rots| >= 1
    ensures rotation == Combine(rots, slerp)
    ensures |rots| == 1 ==> rotation == rots[0]
  {
    if |rots| == 2 {
      rotation := slerp(rots[0], rots[1], 0.5);
    } else {
      var sorted := SortBySimilarity(rots);
      rotation := sorted[0];
      var i := 1;
      while i < |sorted|
        invariant 1 <= i <= |sorted|
        invariant rotation == Blend(sorted, slerp, i)
      {
        rotation := slerp(rotation, sorted[i], 1.0 / ((i + 1) as real));
        i := i + 1;
      }
      if |rots| == 1 {
        assert sorted == rots by {
          assert multiset(sorted) == multiset(rots);
          assert sorted[0] in multiset(rots);
        }
      }
    }
  }
}
