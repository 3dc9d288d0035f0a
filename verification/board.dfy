/** The settled bubbles (the `bubbles` array) and the graph they form.
    Adjacency is derived from centre distances only; there is no row/column
    indexing. A board is a sequence in insertion order; each bubble carries
    an `id` standing for its object identity, so that two bubbles with the
    same position and colour are still two different bubbles. */
module Board {
  import opened Geometry

  /** Index into the five-entry palette BASE_COLORS. */
  type Color = nat

  const PaletteSize: nat := 5

  /** Number of palette entries drawn from at `level` (maxIdx in randColorForLevel):
      the smaller of the palette size and 3 + level. */
  function ColorPool(level: nat): (n: nat)
    ensures 3 <= n <= PaletteSize
    ensures n <= 3 + level
    ensures n == PaletteSize || n == 3 + level
  {
    if 3 + level < PaletteSize then 3 + level else PaletteSize
  }

  datatype Bubble = Bubble(id: nat, pos: Point, radius: real, color: Color)

  /** Neighbour test used by both the colour flood fill and the ceiling sweep. */
  function Near(a: Bubble, b: Bubble): (near: bool)
    ensures near <==> DistanceSq(b.pos, a.pos) <= NeighborDistSq
    ensures a.pos == b.pos ==> near
  {
    DistanceSqSymmetric(a.pos, b.pos);
    DistanceSq(a.pos, b.pos) <= NeighborDistSq
  }

  /** Bubbles close enough to the ceiling to anchor the board. */
  function IsSeed(b: Bubble): (seed: bool)
    ensures seed <==> b.pos.y <= 24.0
    ensures b.pos.y <= Radius ==> seed
  {
    b.pos.y <= CeilingAnchorY
  }

  function Elems(s: seq<Bubble>): set<Bubble> {
    set b | b in s
  }

  predicate NoDuplicates(s: seq<Bubble>) {
    forall i, j :: 0 <= i < j < |s| ==> s[i] != s[j]
  }

  /** No two entries of the board are the same object. */
  predicate DistinctIds(s: seq<Bubble>) {
    forall i, j :: 0 <= i < j < |s| ==> s[i].id != s[j].id
  }

  /** `r` is `s` with some entries dropped and the rest in their original order. */
  predicate IsSubsequence(r: seq<Bubble>, s: seq<Bubble>)
    decreases |s|
  {
    if r == [] then true
    else if s == [] then false
    else if r[0] == s[0] then IsSubsequence(r[1..], s[1..])
    else IsSubsequence(r, s[1..])
  }

  /** Appending the same bubble to both keeps a subsequence a subsequence,
      and so does appending it to the longer one only. */
  lemma {:induction false} SubsequenceSnoc(r: seq<Bubble>, s: seq<Bubble>, x: Bubble)
    requires IsSubsequence(r, s)
    ensures IsSubsequence(r, s + [x])
    ensures IsSubsequence(r + [x], s + [x])
    decreases |s|
  {
    if s == [] {
      assert r == [];
      assert ([x] + [])[1..] == [];
    } else {
      assert (s + [x])[1..] == s[1..] + [x];
      if r == [] {
        if s[0] != x {
          SubsequenceSnoc(r, s[1..], x);
        }
      } else if r[0] == s[0] {
        SubsequenceSnoc(r[1..], s[1..], x);
        assert (r + [x])[1..] == r[1..] + [x];
      } else {
        SubsequenceSnoc(r, s[1..], x);
      }
    }
  }

  /** `s.filter(b => !gone.has(b))`. */
  function Without(s: seq<Bubble>, gone: set<Bubble>): (r: seq<Bubble>)
    ensures forall b :: b in r <==> b in s && b !in gone
    ensures |r| <= |s|
    ensures IsSubsequence(r, s)
    ensures DistinctIds(s) ==> DistinctIds(r)
  {
    if s == [] then []
    else if s[0] in gone then Without(s[1..], gone)
    else
      var rest := Without(s[1..], gone);
      DistinctIdsCons(s[0], s[1..]);
      DistinctIdsCons(s[0], rest);
      assert ([s[0]] + rest)[1..] == rest;
      [s[0]] + rest
  }

  /** `s.filter(b => keep.has(b))`. */
  function Retain(s: seq<Bubble>, keep: set<Bubble>): (r: seq<Bubble>)
    ensures forall b :: b in r <==> b in s && b in keep
    ensures |r| <= |s|
    ensures IsSubsequence(r, s)
    ensures DistinctIds(s) ==> DistinctIds(r)
  {
    if s == [] then []
    else if s[0] !in keep then Retain(s[1..], keep)
    else
      var rest := Retain(s[1..], keep);
      DistinctIdsCons(s[0], s[1..]);
      DistinctIdsCons(s[0], rest);
      assert ([s[0]] + rest)[1..] == rest;
      [s[0]] + rest
  }

  /** The board entries of colour `c`, in board order. */
  function SameColor(s: seq<Bubble>, c: Color): (r: seq<Bubble>)
    ensures forall b :: b in r <==> b in s && b.color == c
  {
    if s == [] then []
    else if s[0].color == c then [s[0]] + SameColor(s[1..], c)
    else SameColor(s[1..], c)
  }

  // ---------------------------------------------------------------------
  // Reachability through chains of neighbours
  // ---------------------------------------------------------------------

  /** `p` is a chain of neighbours whose every vertex after the first lies in `nodes`. */
  ghost predicate IsWalk(nodes: seq<Bubble>, p: seq<Bubble>) {
    && |p| > 0
    && (forall k :: 0 < k < |p| ==> p[k] in nodes)
    && (forall k :: 0 <= k < |p| - 1 ==> Near(p[k], p[k + 1]))
  }

  /** `x` is the end of a walk through `nodes` that starts at one of `sources`. */
  ghost predicate Reachable(nodes: seq<Bubble>, sources: set<Bubble>, x: Bubble) {
    exists p :: IsWalk(nodes, p) && p[0] in sources && p[|p| - 1] == x
  }

  /** The connected same-coloured component of `start`: `start` and every
      bubble of its colour reachable from it through bubbles of its colour. */
  ghost function ColorGroup(board: seq<Bubble>, start: Bubble): set<Bubble> {
    set b | b in [start] + board && Reachable(SameColor(board, start.color), {start}, b)
  }

  ghost function Seeds(board: seq<Bubble>): set<Bubble> {
    set b | b in board && IsSeed(b)
  }

  /** `b` is connected to the ceiling: reachable through neighbours from a seed. */
  ghost predicate Anchored(board: seq<Bubble>, b: Bubble) {
    Reachable(board, Seeds(board), b)
  }

  ghost function AnchoredSet(board: seq<Bubble>): set<Bubble> {
    set b | b in board && Anchored(board, b)
  }

  /** The board after the floating-cluster sweep. */
  ghost function Survivors(board: seq<Bubble>): seq<Bubble> {
    Retain(board, AnchoredSet(board))
  }

  /** The order in which a breadth-first search found the vertices `R`:
      each is a source or a vertex of `nodes` next to one found earlier. */
  ghost predicate DiscoveryOrder(nodes: seq<Bubble>, sources: set<Bubble>, R: seq<Bubble>) {
    forall k :: 0 <= k < |R| ==>
      R[k] in sources || (R[k] in nodes && exists j :: 0 <= j < k && Near(R[j], R[k]))
  }

  /** `V` has no neighbour in `nodes` outside itself. */
  ghost predicate Closed(nodes: seq<Bubble>, V: set<Bubble>) {
    forall a, b :: a in V && b in nodes && Near(a, b) ==> b in V
  }

  // ---------------------------------------------------------------------
  // Lemmas
  // ---------------------------------------------------------------------

  /** Everything a breadth-first search discovers is reachable. */
  lemma {:induction false} DiscoveredIsReachable(nodes: seq<Bubble>, sources: set<Bubble>, R: seq<Bubble>, k: nat)
    requires DiscoveryOrder(nodes, sources, R)
    requires k < |R|
    ensures Reachable(nodes, sources, R[k])
    decreases k
  {
    if R[k] in sources {
      var p := [R[k]];
      assert IsWalk(nodes, p) && p[0] in sources && p[|p| - 1] == R[k];
    } else {
      var j :| 0 <= j < k && Near(R[j], R[k]);
      DiscoveredIsReachable(nodes, sources, R, j);
      var p :| IsWalk(nodes, p) && p[0] in sources && p[|p| - 1] == R[j];
      var q := p + [R[k]];
      assert forall i :: 0 <= i < |q| - 1 ==> Near(q[i], q[i + 1]) by {
        forall i | 0 <= i < |q| - 1 ensures Near(q[i], q[i + 1]) {
          if i < |p| - 1 {
            assert q[i] == p[i] && q[i + 1] == p[i + 1];
          }
        }
      }
      assert IsWalk(nodes, q) && q[0] in sources && q[|q| - 1] == R[k];
    }
  }

  lemma {:induction false} WalkStaysInside(nodes: seq<Bubble>, V: set<Bubble>, p: seq<Bubble>)
    requires Closed(nodes, V)
    requires IsWalk(nodes, p) && p[0] in V
    ensures p[|p| - 1] in V
    decreases |p|
  {
    if |p| > 1 {
      var q := p[..|p| - 1];
      assert IsWalk(nodes, q);
      WalkStaysInside(nodes, V, q);
      assert Near(p[|p| - 2], p[|p| - 1]);
    }
  }

  /** A set that holds every source and is closed under neighbours holds
      everything reachable. */
  lemma ClosedContainsReachable(nodes: seq<Bubble>, sources: set<Bubble>, V: set<Bubble>, x: Bubble)
    requires sources <= V && Closed(nodes, V)
    requires Reachable(nodes, sources, x)
    ensures x in V
  {
    var p :| IsWalk(nodes, p) && p[0] in sources && p[|p| - 1] == x;
    WalkStaysInside(nodes, V, p);
  }

  /** Every vertex of a walk from a seed is itself anchored. */
  lemma {:induction false} WalkVerticesAnchored(board: seq<Bubble>, p: seq<Bubble>, k: nat)
    requires IsWalk(board, p) && p[0] in Seeds(board)
    requires k < |p|
    ensures p[k] in AnchoredSet(board)
  {
    var q := p[..k + 1];
    assert IsWalk(board, q) && q[0] in Seeds(board) && q[|q| - 1] == p[k];
  }

  /** The anchored bubbles include every seed, lie on the board, and are
      closed under neighbours: nothing next to an anchored bubble floats. */
  lemma AnchoredSetClosed(board: seq<Bubble>)
    ensures Seeds(board) <= AnchoredSet(board) <= Elems(board)
    ensures Closed(board, AnchoredSet(board))
  {
    forall x | x in Seeds(board)
      ensures x in AnchoredSet(board)
    {
      assert IsWalk(board, [x]);
    }
    forall a, b | a in AnchoredSet(board) && b in board && Near(a, b)
      ensures b in AnchoredSet(board)
    {
      var p :| IsWalk(board, p) && p[0] in Seeds(board) && p[|p| - 1] == a;
      var q := p + [b];
      assert forall k :: 0 <= k < |p| ==> q[k] == p[k];
      assert IsWalk(board, q) && q[0] in Seeds(board) && q[|q| - 1] == b;
      WalkReaches(board, Seeds(board), q, b);
    }
  }

  lemma WalkReaches(nodes: seq<Bubble>, sources: set<Bubble>, p: seq<Bubble>, x: Bubble)
    requires IsWalk(nodes, p) && p[0] in sources && p[|p| - 1] == x
    ensures Reachable(nodes, sources, x)
  {
  }

  lemma {:induction false} RetainAll(s: seq<Bubble>, keep: set<Bubble>)
    requires forall b :: b in s ==> b in keep
    ensures Retain(s, keep) == s
    decreases |s|
  {
    if s != [] {
      RetainAll(s[1..], keep);
    }
  }

  /** Sweeping floaters twice removes nothing the second time. */
  lemma SweepIdempotent(board: seq<Bubble>)
    ensures Survivors(Survivors(board)) == Survivors(board)
  {
    var S := Survivors(board);
    forall b | b in S
      ensures b in AnchoredSet(S)
    {
      var p :| IsWalk(board, p) && p[0] in Seeds(board) && p[|p| - 1] == b;
      forall k | 0 <= k < |p|
        ensures p[k] in S
      {
        WalkVerticesAnchored(board, p, k);
      }
      assert IsWalk(S, p);
      assert p[0] in Seeds(S);
    }
    RetainAll(S, AnchoredSet(S));
  }

  lemma {:induction false} ElemsCard(g: seq<Bubble>)
    requires NoDuplicates(g)
    ensures |Elems(g)| == |g|
    decreases |g|
  {
    if g != [] {
      var t := g[1..];
      ElemsCard(t);
      assert Elems(g) == Elems(t) + {g[0]};
      assert g[0] !in Elems(t);
    }
  }

  lemma {:induction false} WithoutCard(s: seq<Bubble>, gone: set<Bubble>)
    requires NoDuplicates(s)
    ensures |Without(s, gone)| + |gone * Elems(s)| == |s|
    decreases |s|
  {
    if s != [] {
      var t := s[1..];
      WithoutCard(t, gone);
      assert Elems(s) == Elems(t) + {s[0]};
      assert s[0] !in Elems(t);
      if s[0] in gone {
        assert gone * Elems(s) == gone * Elems(t) + {s[0]};
      } else {
        assert gone * Elems(s) == gone * Elems(t);
      }
    }
  }

  /** Removing a duplicate-free group of board entries shrinks the board by
      exactly the size of the group. */
  lemma RemoveGroupSize(board: seq<Bubble>, group: seq<Bubble>)
    requires NoDuplicates(board) && NoDuplicates(group)
    requires Elems(group) <= Elems(board)
    ensures |Without(board, Elems(group))| == |board| - |group|
  {
    WithoutCard(board, Elems(group));
    ElemsCard(group);
    assert Elems(group) * Elems(board) == Elems(group);
  }

  /** Removing a set of board entries from a duplicate-free board shrinks
      it by exactly the size of the set. */
  lemma RemoveSetSize(board: seq<Bubble>, gone: set<Bubble>)
    requires NoDuplicates(board) && gone <= Elems(board)
    ensures |Without(board, gone)| == |board| - |gone|
  {
    WithoutCard(board, gone);
    assert gone * Elems(board) == gone;
  }

  /** The colour group of a board bubble lies on the board. */
  lemma ColorGroupOnBoard(board: seq<Bubble>, start: Bubble)
    requires start in board
    ensures ColorGroup(board, start) <= Elems(board)
  {
  }

  /** The positions of the bubbles, in order. */
  function Positions(s: seq<Bubble>): (ps: seq<Point>)
    ensures |ps| == |s| && forall i :: 0 <= i < |s| ==> ps[i] == s[i].pos
  {
    if s == [] then [] else [s[0].pos] + Positions(s[1..])
  }

  lemma NoDuplicatesAppend(s: seq<Bubble>, x: Bubble)
    requires NoDuplicates(s) && x !in s
    ensures NoDuplicates(s + [x])
  {
  }

  lemma NoDuplicatesConcat(s: seq<Bubble>, t: seq<Bubble>)
    requires NoDuplicates(s) && NoDuplicates(t)
    requires forall x :: x in t ==> x !in s
    ensures NoDuplicates(s + t)
  {
    forall i, j | 0 <= i < j < |s + t|
      ensures (s + t)[i] != (s + t)[j]
    {
      if j >= |s| && i < |s| {
        assert (s + t)[j] in t;
      }
    }
  }

  /** Distinct identities, one element at a time. */
  lemma DistinctIdsCons(x: Bubble, rest: seq<Bubble>)
    ensures DistinctIds([x] + rest) <==> DistinctIds(rest) && forall b :: b in rest ==> b.id != x.id
  {
    var s := [x] + rest;
    assert forall i :: 0 <= i < |rest| ==> s[i + 1] == rest[i];
    if DistinctIds(s) {
      forall b | b in rest ensures b.id != x.id {
        var i :| 0 <= i < |rest| && rest[i] == b;
        assert s[0].id != s[i + 1].id;
      }
    }
  }

  lemma DistinctIdsNoDuplicates(s: seq<Bubble>)
    requires DistinctIds(s)
    ensures NoDuplicates(s)
  {
  }
}
