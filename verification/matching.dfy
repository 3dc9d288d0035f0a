/** The match engine's two breadth-first searches over the board: the
    same-colour flood fill (floodFillColor) and the ceiling-connectivity
    search behind removeFloatingBubbles. Both keep a FIFO queue and a
    visited set, and scan the whole board for neighbours of each dequeued
    bubble. */
module Matching {
  import opened Wrappers
  import opened Geometry
  import opened Board

  /** The flood fill only follows bubbles of one colour; the ceiling sweep
      follows every bubble. */
  predicate Admits(filter: Option<Color>, x: Bubble) {
    filter.None? || x.color == filter.value
  }

  /** One pass of the inner `for (const other of bubbles)` loop: every board
      bubble not yet visited, admitted by the filter and near `b` is marked
      visited and enqueued, in board order. */
  method ScanNeighbors(board: seq<Bubble>, b: Bubble, visited: set<Bubble>, filter: Option<Color>)
    returns (visitedOut: set<Bubble>, found: seq<Bubble>)
    ensures NoDuplicates(found) && IsSubsequence(found, board)
    ensures forall x :: x in found ==> x !in visited && x in board && Admits(filter, x) && Near(b, x)
    ensures forall x :: x in visitedOut <==> x in visited || x in found
    ensures forall y :: y in board && Admits(filter, y) && Near(b, y) ==> y in visitedOut
  {
    visitedOut, found := visited, [];
    var i := 0;
    while i < |board|
      invariant 0 <= i <= |board|
      invariant NoDuplicates(found) && IsSubsequence(found, board[..i])
      invariant forall x :: x in found ==> x !in visited && x in board && Admits(filter, x) && Near(b, x)
      invariant forall x :: x in visitedOut <==> x in visited || x in found
      invariant forall m :: 0 <= m < i && Admits(filter, board[m]) && Near(b, board[m]) ==> board[m] in visitedOut
    {
      var other := board[i];
      assert board[..i + 1] == board[..i] + [other];
      SubsequenceSnoc(found, board[..i], other);
      if other !in visitedOut && Admits(filter, other) && DistanceSq(b.pos, other.pos) <= NeighborDistSq {
        NoDuplicatesAppend(found, other);
        visitedOut := visitedOut + {other};
        found := found + [other];
      }
      i := i + 1;
    }
    assert board[..|board|] == board;
  }

  /** `n` copies of `v`. */
  function Repeat<T>(n: nat, v: T): (r: seq<T>)
    ensures |r| == n && forall i :: 0 <= i < n ==> r[i] == v
  {
    if n == 0 then [] else [v] + Repeat(n - 1, v)
  }

  // ---------------------------------------------------------------------
  // Pieces of the two searches' loop invariants
  // ---------------------------------------------------------------------

  /** The visited set holds exactly what has been enqueued so far. */
  ghost predicate Tracks(visited: set<Bubble>, order: seq<Bubble>) {
    forall x :: x in visited <==> x in order
  }

  /** `order[k]` was enqueued by the scan of the earlier `order[parent[k]]`. */
  ghost predicate LinkedTo(order: seq<Bubble>, parent: seq<int>, k: nat)
    requires k < |order| == |parent|
  {
    0 <= parent[k] < k && Near(order[parent[k]], order[k])
  }

  /** Every bubble after the first was enqueued by an earlier one's scan. */
  ghost predicate LinkedAfterFirst(order: seq<Bubble>, parent: seq<int>) {
    |parent| == |order| && forall k :: 0 < k < |order| ==> LinkedTo(order, parent, k)
  }

  /** Every admitted neighbour of a dequeued bubble has been visited. */
  ghost predicate ClosedSoFar(board: seq<Bubble>, filter: Option<Color>, done: seq<Bubble>, visited: set<Bubble>) {
    forall x, y :: x in done && y in board && Admits(filter, y) && Near(x, y) ==> y in visited
  }

  /** Every bubble after the first is a board bubble of colour `c`. */
  ghost predicate OfColorAfterFirst(board: seq<Bubble>, c: Color, order: seq<Bubble>) {
    forall k :: 0 < k < |order| ==> order[k] in board && order[k].color == c
  }

  // ---------------------------------------------------------------------
  // floodFillColor
  // ---------------------------------------------------------------------

  /** floodFillColor: the bubbles of `start`'s colour connected to it, in
      breadth-first discovery order, `start` first. */
  method FloodFillColor(board: seq<Bubble>, start: Bubble) returns (group: seq<Bubble>)
    ensures |group| > 0 && group[0] == start
    ensures NoDuplicates(group)
    ensures forall k :: 0 < k < |group| ==> group[k] in board && group[k].color == start.color
    ensures forall k :: 0 < k < |group| ==> exists j :: 0 <= j < k && Near(group[j], group[k])
    ensures forall x, y :: x in group && y in board && y.color == start.color && Near(x, y) ==> y in group
    ensures Elems(group) == ColorGroup(board, start)
  {
    var visited := {start};
    var result: seq<Bubble> := [];
    var queue := [start];
    // everything ever enqueued, in order: the dequeued prefix, then the queue;
    // parent[k] is the position of the bubble whose scan enqueued order[k]
    ghost var order := [start];
    ghost var parent: seq<int> := [-1];

    while |queue| > 0
      invariant FloodInv(board, start, result, queue, visited, order, parent)
      decreases Elems(board) - visited, |queue|
    {
      var b := queue[0];
      ghost var visited0 := visited;
      var found;
      visited, found := ScanNeighbors(board, b, visited, Some(start.color));
      FloodStep(board, start, result, queue, visited0, order, parent, visited, found);
      order := order + found;
      parent := parent + Repeat<int>(|found|, |result|);
      result := result + [b];
      queue := queue[1..] + found;
      if found == [] {
        assert visited == visited0;
      } else {
        assert found[0] in Elems(board) - visited0;
      }
    }

    group := result;
    assert order == group;
    FloodOrderIsGroup(board, start, group, parent);
  }

  /** The flood fill's loop invariant: `order` is everything enqueued so
      far (the dequeued `result`, then `queue`), `visited` is exactly its
      members, each found from an earlier one (`parent`), and every
      same-coloured neighbour of a dequeued bubble has been visited. */
  ghost predicate FloodInv(board: seq<Bubble>, start: Bubble, result: seq<Bubble>, queue: seq<Bubble>,
                           visited: set<Bubble>, order: seq<Bubble>, parent: seq<int>)
  {
    && order == result + queue
    && |order| > 0 && order[0] == start
    && Tracks(visited, order)
    && NoDuplicates(order)
    && OfColorAfterFirst(board, start.color, order)
    && LinkedAfterFirst(order, parent)
    && ClosedSoFar(board, Some(start.color), result, visited)
  }

  /** Dequeuing `queue[0]` and enqueuing what its scan found keeps the invariant. */
  lemma FloodStep(board: seq<Bubble>, start: Bubble, result: seq<Bubble>, queue: seq<Bubble>,
                  visited: set<Bubble>, order: seq<Bubble>, parent: seq<int>,
                  visitedOut: set<Bubble>, found: seq<Bubble>)
    requires FloodInv(board, start, result, queue, visited, order, parent) && |queue| > 0
    requires NoDuplicates(found)
    requires forall x :: x in found ==> x !in visited && x in board && Admits(Some(start.color), x) && Near(queue[0], x)
    requires forall x :: x in visitedOut <==> x in visited || x in found
    requires forall y :: y in board && Admits(Some(start.color), y) && Near(queue[0], y) ==> y in visitedOut
    ensures FloodInv(board, start, result + [queue[0]], queue[1..] + found, visitedOut,
                     order + found, parent + Repeat<int>(|found|, |result|))
  {
    StepOrder(result, queue, order, found);
    StepVisited(visited, order, visitedOut, found);
    NoDuplicatesConcat(order, found);
    StepColors(board, start.color, order, found);
    assert order[|result|] == queue[0];
    StepLinks(order, parent, found, |result|);
    StepClosed(board, Some(start.color), result, queue[0], visited, visitedOut);
  }

  lemma StepOrder(done: seq<Bubble>, queue: seq<Bubble>, order: seq<Bubble>, found: seq<Bubble>)
    requires |queue| > 0 && order == done + queue
    ensures order + found == (done + [queue[0]]) + (queue[1..] + found)
  {
    assert queue == [queue[0]] + queue[1..];
  }

  lemma StepVisited(visited: set<Bubble>, order: seq<Bubble>, visitedOut: set<Bubble>, found: seq<Bubble>)
    requires Tracks(visited, order)
    requires forall x :: x in visitedOut <==> x in visited || x in found
    requires forall x :: x in found ==> x !in visited
    ensures Tracks(visitedOut, order + found)
    ensures forall x :: x in found ==> x !in order
  {
  }

  lemma StepColors(board: seq<Bubble>, c: Color, order: seq<Bubble>, found: seq<Bubble>)
    requires OfColorAfterFirst(board, c, order)
    requires forall x :: x in found ==> x in board && Admits(Some(c), x)
    ensures OfColorAfterFirst(board, c, order + found)
  {
    forall k | 0 < k < |order + found|
      ensures (order + found)[k] in board && (order + found)[k].color == c
    {
      if k >= |order| {
        assert (order + found)[k] == found[k - |order|];
      } else {
        assert (order + found)[k] == order[k];
      }
    }
  }

  /** The bubbles one scan finds were all found from `order[p]`. */
  lemma StepLinks(order: seq<Bubble>, parent: seq<int>, found: seq<Bubble>, p: nat)
    requires LinkedAfterFirst(order, parent) && p < |order|
    requires forall x :: x in found ==> Near(order[p], x)
    ensures LinkedAfterFirst(order + found, parent + Repeat<int>(|found|, p))
  {
    var order', parent' := order + found, parent + Repeat<int>(|found|, p);
    forall k | 0 < k < |order'|
      ensures LinkedTo(order', parent', k)
    {
      if k >= |order| {
        assert parent'[k] == p && order'[p] == order[p];
        assert order'[k] == found[k - |order|];
      } else {
        assert LinkedTo(order, parent, k);
        assert parent'[k] == parent[k];
        assert order'[parent[k]] == order[parent[k]] && order'[k] == order[k];
      }
    }
  }

  /** Once `b`'s scan is done, every admitted neighbour of a dequeued bubble is visited. */
  lemma StepClosed(board: seq<Bubble>, filter: Option<Color>, done: seq<Bubble>, b: Bubble,
                   visited: set<Bubble>, visitedOut: set<Bubble>)
    requires ClosedSoFar(board, filter, done, visited)
    requires forall x :: x in visited ==> x in visitedOut
    requires forall y :: y in board && Admits(filter, y) && Near(b, y) ==> y in visitedOut
    ensures ClosedSoFar(board, filter, done + [b], visitedOut)
  {
  }

  /** A duplicate-free discovery order of `start`'s colour that is closed
      under same-coloured neighbours is exactly `start`'s colour group. */
  lemma FloodOrderIsGroup(board: seq<Bubble>, start: Bubble, group: seq<Bubble>, parent: seq<int>)
    requires |group| > 0 && group[0] == start
    requires OfColorAfterFirst(board, start.color, group)
    requires LinkedAfterFirst(group, parent)
    requires ClosedSoFar(board, Some(start.color), group, Elems(group))
    ensures forall k :: 0 < k < |group| ==> exists j :: 0 <= j < k && Near(group[j], group[k])
    ensures Elems(group) == ColorGroup(board, start)
  {
    var nodes := SameColor(board, start.color);
    forall k | 0 < k < |group|
      ensures exists j :: 0 <= j < k && Near(group[j], group[k])
    {
      assert LinkedTo(group, parent, k);
      assert Near(group[parent[k]], group[k]);
    }
    assert DiscoveryOrder(nodes, {start}, group);
    assert Closed(nodes, Elems(group));
    forall x | x in Elems(group)
      ensures x in ColorGroup(board, start)
    {
      var k :| 0 <= k < |group| && group[k] == x;
      DiscoveredIsReachable(nodes, {start}, group, k);
    }
    forall x | x in ColorGroup(board, start)
      ensures x in Elems(group)
    {
      ClosedContainsReachable(nodes, {start}, Elems(group), x);
    }
  }

  // ---------------------------------------------------------------------
  // removeFloatingBubbles' ceiling search
  // ---------------------------------------------------------------------

  /** The bubbles removeFloatingBubbles keeps (topConnected): those
      reachable through neighbours from a bubble near the ceiling. */
  method TopConnected(board: seq<Bubble>) returns (connected: set<Bubble>)
    ensures connected == AnchoredSet(board)
  {
    connected := {};
    var queue: seq<Bubble> := [];
    var i := 0;
    while i < |board|
      invariant 0 <= i <= |board|
      invariant Tracks(connected, queue)
      invariant forall k :: 0 <= k < |queue| ==> queue[k] in Seeds(board)
      invariant forall m :: 0 <= m < i && IsSeed(board[m]) ==> board[m] in connected
    {
      var b := board[i];
      if b.pos.y <= Radius * 1.5 {
        connected := connected + {b};
        queue := queue + [b];
      }
      i := i + 1;
    }

    ghost var done: seq<Bubble> := [];
    ghost var order := queue;
    // parent[k] is the position of the bubble whose scan enqueued order[k];
    // seeds have none
    ghost var parent := Repeat<int>(|queue|, -1);
    while |queue| > 0
      invariant SweepInv(board, done, queue, connected, order, parent)
      decreases Elems(board) - connected, |queue|
    {
      var b := queue[0];
      ghost var connected0 := connected;
      var found;
      connected, found := ScanNeighbors(board, b, connected, None);
      SweepStep(board, done, queue, connected0, order, parent, connected, found);
      order := order + found;
      parent := parent + Repeat<int>(|found|, |done|);
      done := done + [b];
      queue := queue[1..] + found;
      if found == [] {
        assert connected == connected0;
      } else {
        assert found[0] in Elems(board) - connected0;
      }
    }

    assert order == done;
    SweepOrderIsAnchored(board, order, parent, connected);
  }

  /** Every enqueued bubble is a seed or was enqueued by an earlier one's scan. */
  ghost predicate SeededLinks(board: seq<Bubble>, order: seq<Bubble>, parent: seq<int>) {
    && |parent| == |order|
    && forall k :: 0 <= k < |order| ==>
         order[k] in Seeds(board) || (order[k] in board && LinkedTo(order, parent, k))
  }

  /** The ceiling search's loop invariant. */
  ghost predicate SweepInv(board: seq<Bubble>, done: seq<Bubble>, queue: seq<Bubble>,
                           connected: set<Bubble>, order: seq<Bubble>, parent: seq<int>)
  {
    && order == done + queue
    && Tracks(connected, order)
    && SeededLinks(board, order, parent)
    && Seeds(board) <= connected
    && ClosedSoFar(board, None, done, connected)
  }

  lemma SweepStep(board: seq<Bubble>, done: seq<Bubble>, queue: seq<Bubble>,
                  connected: set<Bubble>, order: seq<Bubble>, parent: seq<int>,
                  connectedOut: set<Bubble>, found: seq<Bubble>)
    requires SweepInv(board, done, queue, connected, order, parent) && |queue| > 0
    requires forall x :: x in found ==> x !in connected && x in board && Near(queue[0], x)
    requires forall x :: x in connectedOut <==> x in connected || x in found
    requires forall y :: y in board && Admits(None, y) && Near(queue[0], y) ==> y in connectedOut
    ensures SweepInv(board, done + [queue[0]], queue[1..] + found, connectedOut,
                     order + found, parent + Repeat<int>(|found|, |done|))
  {
    StepOrder(done, queue, order, found);
    StepVisited(connected, order, connectedOut, found);
    assert order[|done|] == queue[0];
    StepSeededLinks(board, order, parent, found, |done|);
    StepClosed(board, None, done, queue[0], connected, connectedOut);
  }

  lemma StepSeededLinks(board: seq<Bubble>, order: seq<Bubble>, parent: seq<int>, found: seq<Bubble>, p: nat)
    requires SeededLinks(board, order, parent) && p < |order|
    requires forall x :: x in found ==> x in board && Near(order[p], x)
    ensures SeededLinks(board, order + found, parent + Repeat<int>(|found|, p))
  {
    var order', parent' := order + found, parent + Repeat<int>(|found|, p);
    forall k | 0 <= k < |order'|
      ensures order'[k] in Seeds(board) || (order'[k] in board && LinkedTo(order', parent', k))
    {
      if k >= |order| {
        assert parent'[k] == p && order'[p] == order[p];
        assert order'[k] == found[k - |order|];
      } else if order[k] !in Seeds(board) {
        assert LinkedTo(order, parent, k);
        assert parent'[k] == parent[k];
        assert order'[parent[k]] == order[parent[k]] && order'[k] == order[k];
      }
    }
  }

  /** A discovery order from the seeds, closed under neighbours, holds
      exactly the anchored bubbles. */
  lemma SweepOrderIsAnchored(board: seq<Bubble>, order: seq<Bubble>, parent: seq<int>, connected: set<Bubble>)
    requires Tracks(connected, order)
    requires SeededLinks(board, order, parent)
    requires Seeds(board) <= connected
    requires ClosedSoFar(board, None, order, connected)
    ensures connected == AnchoredSet(board)
  {
    forall k | 0 <= k < |order| && order[k] !in Seeds(board)
      ensures exists j :: 0 <= j < k && Near(order[j], order[k])
    {
      assert LinkedTo(order, parent, k);
      assert Near(order[parent[k]], order[k]);
    }
    assert DiscoveryOrder(board, Seeds(board), order);
    assert Closed(board, connected);
    forall x | x in connected
      ensures x in board && Anchored(board, x)
    {
      var k :| 0 <= k < |order| && order[k] == x;
      DiscoveredIsReachable(board, Seeds(board), order, k);
    }
    forall x | x in board && Anchored(board, x)
      ensures x in connected
    {
      ClosedContainsReachable(board, Seeds(board), connected, x);
    }
  }
}
