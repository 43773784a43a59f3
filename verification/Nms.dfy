/** Greedy non-maximum suppression (firemex/detect/onnx_backend.py, nms).  The order is any
    order of the boxes by descending score: how equal scores are ordered is left to the
    sorting routine. */
module Nms {
  import opened Geometry

  // ---- suppression under any relation --------------------------------------

  /** `near(a, b)`: box `b` is to go if box `a` is kept. */
  type Relation = (nat, nat) -> bool

  /** The members of `rest` that are not near `best`. */
  function Far(near: Relation, best: nat, rest: seq<nat>): (r: seq<nat>)
    ensures |r| <= |rest|
  {
    if rest == [] then []
    else
      var front := Far(near, best, rest[..|rest| - 1]);
      if near(best, rest[|rest| - 1]) then front else front + [rest[|rest| - 1]]
  }

  /** Suppression by repeated filtering: take the best, drop what is near it, go on. */
  function Greedy(near: Relation, order: seq<nat>): seq<nat>
    decreases |order|
  {
    if order == [] then [] else [order[0]] + Greedy(near, Far(near, order[0], order[1..]))
  }

  lemma GreedyStep(near: Relation, keep: seq<nat>, order: seq<nat>)
    requires order != []
    ensures keep + Greedy(near, order) == (keep + [order[0]]) + Greedy(near, Far(near, order[0], order[1..]))
  {}

  predicate Clear(near: Relation, kept: seq<nat>, x: nat) {
    forall k :: k in kept ==> !near(k, x)
  }

  /** One pass in order: a box is kept if nothing kept before it is near. */
  function Selected(near: Relation, order: seq<nat>): seq<nat> {
    if order == [] then []
    else
      var n := |order| - 1;
      var front := Selected(near, order[..n]);
      if Clear(near, front, order[n]) then front + [order[n]] else front
  }

  lemma FarSnoc(near: Relation, best: nat, rest: seq<nat>, x: nat)
    ensures Far(near, best, rest + [x]) == Far(near, best, rest) + (if near(best, x) then [] else [x])
  {}

  lemma ClearCons(near: Relation, best: nat, rest: seq<nat>, x: nat)
    ensures Clear(near, [best] + rest, x) <==> !near(best, x) && Clear(near, rest, x)
  {
    assert best in [best] + rest;
    assert forall k :: k in rest ==> k in [best] + rest;
  }

  lemma GreedyTail(near: Relation, order: seq<nat>, x: nat)
    requires order != []
    ensures var far := Far(near, order[0], order[1..]);
            Greedy(near, order + [x]) == [order[0]] + Greedy(near, if near(order[0], x) then far else far + [x])
  {
    var all, far := order + [x], Far(near, order[0], order[1..]);
    assert all[1..] == order[1..] + [x];
    FarSnoc(near, order[0], order[1..], x);
    assert far + [] == far;
  }

  lemma Onto(best: nat, rest: seq<nat>, x: nat)
    ensures [best] + (rest + [x]) == [best] + rest + [x]
  {}

  lemma {:induction false} GreedySnoc(near: Relation, order: seq<nat>, x: nat)
    ensures var g := Greedy(near, order);
            Greedy(near, order + [x]) == if Clear(near, g, x) then g + [x] else g
    decreases |order|
  {
    if order == [] {
      assert (order + [x])[1..] == [];
    } else {
      var best := order[0];
      var far := Far(near, best, order[1..]);
      var rest := Greedy(near, far);
      GreedyTail(near, order, x);
      GreedySnoc(near, far, x);
      ClearCons(near, best, rest, x);
      Onto(best, rest, x);
    }
  }

  /** Filtering over and over keeps what the single pass keeps. */
  lemma {:induction false} GreedyIsSelected(near: Relation, order: seq<nat>)
    ensures Greedy(near, order) == Selected(near, order)
  {
    if order != [] {
      var n := |order| - 1;
      GreedyIsSelected(near, order[..n]);
      GreedySnoc(near, order[..n], order[n]);
      assert order[..n] + [order[n]] == order;
    }
  }

  /** Positions of `kept` in `order`: increasing, so order and distinctness carry over. */
  predicate Picks(order: seq<nat>, kept: seq<nat>, at: seq<nat>) {
    && |at| == |kept|
    && (forall i :: 0 <= i < |at| ==> at[i] < |order| && order[at[i]] == kept[i])
    && (forall i, j :: 0 <= i < j < |at| ==> at[i] < at[j])
  }

  lemma PicksMore(order: seq<nat>, kept: seq<nat>, at: seq<nat>)
    requires order != [] && Picks(order[..|order| - 1], kept, at)
    ensures Picks(order, kept, at)
    ensures Picks(order, kept + [order[|order| - 1]], at + [|order| - 1])
  {}

  lemma {:induction false} SelectedPicks(near: Relation, order: seq<nat>) returns (at: seq<nat>)
    ensures Picks(order, Selected(near, order), at)
  {
    at := [];
    if order != [] {
      var n := |order| - 1;
      var front := Selected(near, order[..n]);
      at := SelectedPicks(near, order[..n]);
      PicksMore(order, front, at);
      if Clear(near, front, order[n]) {
        at := at + [n];
      }
    }
  }

  /** Adding boxes at the end does not change what is kept of the boxes before. */
  lemma {:induction false} SelectedOfPrefix(near: Relation, order: seq<nat>, n: nat, x: nat)
    requires n <= |order| && x !in order[n..]
    ensures x in Selected(near, order[..n]) <==> x in Selected(near, order)
  {
    if n < |order| {
      var m := |order| - 1;
      assert order[..m][n..] <= order[n..];
      assert order[..m][..n] == order[..n];
      SelectedOfPrefix(near, order[..m], n, x);
      assert order[n..][m - n] == order[m];
    } else {
      assert order[..n] == order;
    }
  }

  lemma {:induction false} SelectedFrom(near: Relation, order: seq<nat>, x: nat)
    requires x in Selected(near, order)
    ensures x in order
  {
    var n := |order| - 1;
    if x in Selected(near, order[..n]) {
      SelectedFrom(near, order[..n], x);
    }
  }

  lemma NotAgain(order: seq<nat>, j: nat, n: nat)
    requires Distinct(order) && j < n <= |order|
    ensures order[j] !in order[n..]
  {
    forall k | n <= k < |order|
      ensures order[k] != order[j]
    {}
  }

  lemma SelectedBefore(near: Relation, order: seq<nat>, i: nat, j: nat)
    requires Distinct(order) && j < i <= |order|
    ensures order[j] in Selected(near, order[..i]) <==> order[j] in Selected(near, order)
  {
    NotAgain(order, j, i);
    SelectedOfPrefix(near, order, i, order[j]);
  }

  lemma SelectedNext(near: Relation, order: seq<nat>, i: nat)
    requires Distinct(order) && i < |order|
    ensures order[i] in Selected(near, order) <==> Clear(near, Selected(near, order[..i]), order[i])
  {
    var before := Selected(near, order[..i]);
    assert order[..i + 1][..i] == order[..i];
    SelectedBefore(near, order, i + 1, i);
    if order[i] in before {
      SelectedFrom(near, order[..i], order[i]);
    }
  }

  /** The box at position `i` is kept exactly if no box kept before it is near: this fixes
      the result completely. */
  lemma SelectedExactlyWhen(near: Relation, order: seq<nat>, i: nat)
    requires Distinct(order) && i < |order|
    ensures order[i] in Selected(near, order) <==>
            forall j :: 0 <= j < i && order[j] in Selected(near, order) ==> !near(order[j], order[i])
  {
    var before := Selected(near, order[..i]);
    SelectedNext(near, order, i);
    forall j | 0 <= j < i
      ensures order[j] in before <==> order[j] in Selected(near, order)
    {
      SelectedBefore(near, order, i, j);
    }
    forall k | k in before
      ensures exists j :: 0 <= j < i && order[j] == k
    {
      SelectedFrom(near, order[..i], k);
    }
  }

  lemma {:induction false} SelectedApart(near: Relation, order: seq<nat>, i: nat, j: nat)
    requires i < j < |Selected(near, order)|
    ensures !near(Selected(near, order)[i], Selected(near, order)[j])
  {
    var n := |order| - 1;
    var front := Selected(near, order[..n]);
    if j < |front| {
      SelectedApart(near, order[..n], i, j);
    } else {
      assert front[i] in front;
    }
  }

  /** Running again over what was kept keeps all of it. */
  lemma {:induction false} SelectedAgain(near: Relation, order: seq<nat>)
    ensures Selected(near, Selected(near, order)) == Selected(near, order)
  {
    if order != [] {
      var n := |order| - 1;
      SelectedAgain(near, order[..n]);
      var front := Selected(near, order[..n]);
      if Clear(near, front, order[n]) {
        assert (front + [order[n]])[..|front|] == front;
      }
    }
  }

  // ---- boxes and scores ----------------------------------------------------

  /** The overlap of corners that need not be in order. */
  function Common(a: Corners, b: Corners): real {
    Max(Min(a.x2, b.x2) - Max(a.x1, b.x1), 0.0) * Max(Min(a.y2, b.y2) - Max(a.y1, b.y1), 0.0)
  }

  function Share(overlap: real, areas: real): real {
    if areas - overlap > 0.0 then overlap / (areas - overlap) else 0.0
  }

  function RawIou(a: Corners, b: Corners): real {
    Share(Common(a, b), a.Area() + b.Area())
  }

  lemma CommonIsIntersection(a: BBox, b: BBox)
    ensures Common(a, b) == Intersection(a, b)
  {}

  /** On boxes it is the measure used everywhere else. */
  lemma RawIouIsIou(a: BBox, b: BBox)
    ensures RawIou(a, b) == Iou(a, b)
  {
    CommonIsIntersection(a, b);
  }

  function Overlapping(boxes: seq<Corners>, threshold: real): Relation {
    (a: nat, b: nat) => a < |boxes| && b < |boxes| && RawIou(boxes[a], boxes[b]) > threshold
  }

  /** Every box once, best score first. */
  predicate Argsorted(scores: seq<real>, order: seq<nat>) {
    && |order| == |scores| && Distinct(order)
    && (forall i :: 0 <= i < |order| ==> order[i] < |scores|)
    && (forall b: nat :: b < |scores| ==> b in order)
    && (forall i, j :: 0 <= i < j < |order| ==> scores[order[i]] >= scores[order[j]])
  }

  method Suppress(boxes: seq<Corners>, scores: seq<real>, sorted: seq<nat>, threshold: real) returns (keep: seq<nat>)
    requires |boxes| == |scores| && Argsorted(scores, sorted)
    ensures keep == Selected(Overlapping(boxes, threshold), sorted)
  {
    ghost var near := Overlapping(boxes, threshold);
    GreedyIsSelected(near, sorted);
    var order: seq<nat> := sorted;
    keep := [];
    while |order| > 0
      invariant forall i :: 0 <= i < |order| ==> order[i] < |boxes|
      invariant keep + Greedy(near, order) == Greedy(near, sorted)
      decreases |order|
    {
      var best := order[0];
      GreedyStep(near, keep, order);
      keep := keep + [best];
      if |order| == 1 {
        assert order[1..] == [];
        break;
      }
      order := KeepFar(boxes, best, order[1..], threshold);
    }
  }

  method KeepFar(boxes: seq<Corners>, best: nat, rest: seq<nat>, threshold: real) returns (far: seq<nat>)
    requires best < |boxes| && forall i :: 0 <= i < |rest| ==> rest[i] < |boxes|
    ensures far == Far(Overlapping(boxes, threshold), best, rest)
    ensures forall i :: 0 <= i < |far| ==> far[i] < |boxes|
  {
    far := [];
    for i := 0 to |rest|
      invariant far == Far(Overlapping(boxes, threshold), best, rest[..i])
      invariant forall k :: 0 <= k < |far| ==> far[k] < |boxes|
    {
      assert rest[..i + 1][..i] == rest[..i];
      if RawIou(boxes[best], boxes[rest[i]]) <= threshold {
        far := far + [rest[i]];
      }
    }
    assert rest[..|rest|] == rest;
  }

  lemma DroppedForABetter(near: Relation, scores: seq<real>, order: seq<nat>, b: nat) returns (k: nat)
    requires Argsorted(scores, order) && b < |scores| && b !in Selected(near, order)
    ensures k in Selected(near, order) && k < |scores| && scores[k] >= scores[b] && near(k, b)
  {
    assert b in order;
    var i :| 0 <= i < |order| && order[i] == b;
    SelectedExactlyWhen(near, order, i);
    var j :| 0 <= j < i && order[j] in Selected(near, order) && near(order[j], order[i]);
    k := order[j];
  }

  lemma SelectedInOrder(near: Relation, scores: seq<real>, order: seq<nat>)
    requires Argsorted(scores, order)
    ensures var kept := Selected(near, order);
            && (forall i :: 0 <= i < |kept| ==> kept[i] < |scores|)
            && Distinct(kept)
            && (forall i, j :: 0 <= i < j < |kept| ==> scores[kept[i]] >= scores[kept[j]])
  {
    var at := SelectedPicks(near, order);
  }

  /** The result of suppression: distinct boxes in descending score, no two of which overlap
      above the threshold, and for every other box one at least as good that it overlaps. */
  lemma SuppressionLaws(boxes: seq<Corners>, scores: seq<real>, order: seq<nat>, threshold: real)
    requires |boxes| == |scores| && Argsorted(scores, order)
    ensures var kept := Selected(Overlapping(boxes, threshold), order);
            && (forall i :: 0 <= i < |kept| ==> kept[i] < |boxes|)
            && Distinct(kept)
            && (forall i, j :: 0 <= i < j < |kept| ==> scores[kept[i]] >= scores[kept[j]])
            && (forall i, j :: 0 <= i < j < |kept| ==> RawIou(boxes[kept[i]], boxes[kept[j]]) <= threshold)
            && (forall b: nat :: b < |boxes| && b !in kept ==>
                  exists k: nat :: k in kept && scores[k] >= scores[b] && RawIou(boxes[k], boxes[b]) > threshold)
  {
    var near := Overlapping(boxes, threshold);
    var kept := Selected(near, order);
    SelectedInOrder(near, scores, order);
    forall i, j | 0 <= i < j < |kept|
      ensures RawIou(boxes[kept[i]], boxes[kept[j]]) <= threshold
    {
      SelectedApart(near, order, i, j);
      assert !near(kept[i], kept[j]);
    }
    forall b: nat | b < |boxes| && b !in kept
      ensures exists k: nat :: k in kept && scores[k] >= scores[b] && RawIou(boxes[k], boxes[b]) > threshold
    {
      var k := DroppedForABetter(near, scores, order, b);
    }
  }

  // ---- boxes that are none -------------------------------------------------

  lemma InvertedMeetsNothing(a: Corners, b: Corners)
    requires !b.Ordered()
    ensures RawIou(a, b) == 0.0
  {
    assert Common(a, b) == 0.0;
  }

  /** Suppression never removes a box whose corners are out of order. */
  lemma InvertedIsSelected(boxes: seq<Corners>, scores: seq<real>, order: seq<nat>, threshold: real, b: nat)
    requires |boxes| == |scores| && Argsorted(scores, order) && threshold >= 0.0
    requires b < |boxes| && !boxes[b].Ordered()
    ensures b in Selected(Overlapping(boxes, threshold), order)
  {
    if b !in Selected(Overlapping(boxes, threshold), order) {
      var k := DroppedForABetter(Overlapping(boxes, threshold), scores, order, b);
      InvertedMeetsNothing(boxes[k], boxes[b]);
    }
  }

  lemma RawIouNotNegative(a: Corners, b: Corners)
    ensures RawIou(a, b) >= 0.0
  {
    var overlap, areas := Common(a, b), a.Area() + b.Area();
    assert overlap >= 0.0;
    if areas - overlap > 0.0 && overlap > 0.0 {
      assert overlap / (areas - overlap) > 0.0;
    }
  }

  /** Under a negative threshold only the best box survives. */
  lemma {:induction false} OnlyBestBelowZero(boxes: seq<Corners>, order: seq<nat>, threshold: real)
    requires threshold < 0.0 && order != [] && forall i :: 0 <= i < |order| ==> order[i] < |boxes|
    ensures Selected(Overlapping(boxes, threshold), order) == [order[0]]
  {
    if |order| == 1 {
      assert order[..0] == [];
    } else {
      var n := |order| - 1;
      OnlyBestBelowZero(boxes, order[..n], threshold);
      RawIouNotNegative(boxes[order[0]], boxes[order[n]]);
      assert Overlapping(boxes, threshold)(order[0], order[n]);
      assert order[0] in [order[0]];
    }
  }
}
