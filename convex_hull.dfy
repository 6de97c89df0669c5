/** The single monotone pass of `convex_hull_indices` in place_detector.h: a stack of
    vertex indices seeded with 0, 1, 2; every later index pops while the stack holds
    more than one entry and the turn test fails, and is then pushed. */
module ConvexHull {
  import opened Geometry

  /** Which three points the turn test at each step looks at.
      `PolygonTail`: the last two vertices of the polygon and vertex i, as the source
      is written; `StackTop`: the top two stack entries and vertex i, as a Graham
      scan intends. */
  datatype TurnTest = PolygonTail | StackTop

  ghost predicate StrictlyIncreasing(s: seq<nat>)
  {
    forall a, b :: 0 <= a < b < |s| ==> s[a] < s[b]
  }

  ghost predicate IndicesBelow(s: seq<nat>, n: nat)
  {
    forall k :: 0 <= k < |s| ==> s[k] < n
  }

  /** 0, 1, ..., n - 1. */
  function AllIndices(n: nat): (s: seq<nat>)
    ensures |s| == n
  {
    seq(n, k requires 0 <= k < n => k as nat)
  }

  lemma AllIndicesSnoc(n: nat)
    ensures AllIndices(n) + [n] == AllIndices(n + 1)
  {
  }

  /** Every three consecutive polygon vertices turn counter-clockwise. */
  ghost predicate ConsecutiveLeftTurns(pts: seq<Point>)
  {
    forall k :: 0 <= k < |pts| - 2 ==> Orientation(pts[k], pts[k + 1], pts[k + 2]) == 2
  }

  /** Every three consecutive stack entries whose last one was pushed by the loop
      (an index of 3 or more) turn counter-clockwise. */
  ghost predicate LoopTurnsLeft(pts: seq<Point>, hull: seq<nat>)
    requires IndicesBelow(hull, |pts|)
  {
    forall j :: 0 <= j < |hull| - 2 && hull[j + 2] >= 3 ==>
      Orientation(pts[hull[j]], pts[hull[j + 1]], pts[hull[j + 2]]) == 2
  }

  /** The loop condition's turn test: pop unless the three points turn counter-clockwise. */
  predicate FailsTurn(pts: seq<Point>, stack: seq<nat>, i: nat, test: TurnTest)
    requires 3 <= |pts| && i < |pts|
    requires |stack| >= 2 && IndicesBelow(stack, |pts|)
  {
    match test
    case PolygonTail => Orientation(pts[|pts| - 2], pts[|pts| - 1], pts[i]) != 2
    case StackTop => Orientation(pts[stack[|stack| - 2]], pts[stack[|stack| - 1]], pts[i]) != 2
  }

  /** What the stack satisfies before index `i` is processed: it starts at 0, it is
      strictly increasing below `i`, and under the stack-top test every triple the
      loop pushed turns counter-clockwise. */
  ghost predicate StackInvariant(pts: seq<Point>, stack: seq<nat>, i: nat, test: TurnTest)
  {
    1 <= |stack| <= i && stack[0] == 0 && i <= |pts|
    && StrictlyIncreasing(stack) && IndicesBelow(stack, i)
    && (test == StackTop ==> LoopTurnsLeft(pts, stack))
  }

  lemma PopKeepsInvariant(pts: seq<Point>, stack: seq<nat>, i: nat, test: TurnTest)
    requires StackInvariant(pts, stack, i, test) && |stack| > 1
    ensures StackInvariant(pts, stack[..|stack| - 1], i, test)
  {
  }

  /** Pushing `i` onto a stack on which the turn test passed restores the invariant for `i + 1`. */
  lemma PushKeepsInvariant(pts: seq<Point>, stack: seq<nat>, i: nat, test: TurnTest)
    requires 3 <= i < |pts|
    requires StackInvariant(pts, stack, i, test)
    requires |stack| <= 1 || !FailsTurn(pts, stack, i, test)
    ensures StackInvariant(pts, stack + [i], i + 1, test)
  {
    var pushed := stack + [i];
    if test == StackTop {
      forall j | 0 <= j < |pushed| - 2 && pushed[j + 2] >= 3
        ensures Orientation(pts[pushed[j]], pts[pushed[j + 1]], pts[pushed[j + 2]]) == 2
      {
        if j + 2 < |stack| {
          assert pushed[j] == stack[j] && pushed[j + 1] == stack[j + 1] && pushed[j + 2] == stack[j + 2];
        } else {
          assert j == |stack| - 2 && pushed[j + 2] == i;
        }
      }
    }
  }

  /** On a polygon whose consecutive vertices all turn counter-clockwise, the stack-top
      test never pops while the stack is 0, 1, ..., i - 1. */
  lemma LeftTurnsNeverPop(pts: seq<Point>, i: nat)
    requires ConsecutiveLeftTurns(pts) && 3 <= i < |pts|
    ensures !FailsTurn(pts, AllIndices(i), i, StackTop)
  {
    assert pts[i - 2] == pts[(i - 2) + 0] && pts[i] == pts[(i - 2) + 2];
  }

  /** What the inner `while` leaves of `stack`: the top is popped while more than one
      entry remains and the turn test with index `i` fails. */
  function PopWhile(pts: seq<Point>, stack: seq<nat>, i: nat, test: TurnTest): (kept: seq<nat>)
    requires 3 <= |pts| && i < |pts|
    requires |stack| >= 1 && IndicesBelow(stack, |pts|)
    ensures 1 <= |kept| && kept <= stack
    ensures |kept| == 1 || !FailsTurn(pts, kept, i, test)
    decreases |stack|
  {
    if |stack| > 1 && FailsTurn(pts, stack, i, test) then PopWhile(pts, stack[..|stack| - 1], i, test)
    else stack
  }

  /** The stack before index `k` is processed (3 <= k <= n): seeded with 0, 1, 2, and
      for every earlier index the failed turns popped and the index pushed. */
  function Pass(pts: seq<Point>, test: TurnTest, k: nat): (stack: seq<nat>)
    requires 3 <= k <= |pts|
    ensures 2 <= |stack| && IndicesBelow(stack, k) && stack[|stack| - 1] == k - 1
    decreases k
  {
    if k == 3 then [0, 1, 2]
    else
      var prev := Pass(pts, test, k - 1);
      assert IndicesBelow(prev, |pts|);
      PopWhile(pts, prev, k - 1, test) + [k - 1]
  }

  /** The indices `convex_hull_indices` returns: the fixed answers for fewer than three
      vertices, otherwise the stack after the last vertex. */
  function HullIndices(pts: seq<Point>, test: TurnTest): seq<nat>
  {
    if |pts| == 0 then []
    else if |pts| == 1 then [0]
    else if |pts| == 2 then [0, 1]
    else Pass(pts, test, |pts|)
  }

  /** The inner `while` of the pass. */
  method PopFailedTurns(pts: seq<Point>, stack: seq<nat>, i: nat, test: TurnTest) returns (kept: seq<nat>)
    requires 3 <= |pts| && i < |pts|
    requires |stack| >= 1 && IndicesBelow(stack, |pts|)
    ensures kept == PopWhile(pts, stack, i, test)
  {
    kept := stack;
    while |kept| > 1 && FailsTurn(pts, kept, i, test)
      invariant 1 <= |kept| && IndicesBelow(kept, |pts|)
      invariant PopWhile(pts, kept, i, test) == PopWhile(pts, stack, i, test)
      decreases |kept|
    {
      kept := kept[..|kept| - 1];
    }
  }

  /** `convex_hull_indices`: the early returns for fewer than three vertices, then the
      seeded stack and one pop-then-push step per later vertex. */
  method ConvexHullIndices(pts: seq<Point>, test: TurnTest) returns (hull: seq<nat>)
    ensures hull == HullIndices(pts, test)
  {
    if |pts| == 0 {
      return [];
    }
    if |pts| == 1 {
      return [0];
    }
    if |pts| == 2 {
      return [0, 1];
    }
    hull := [0, 1, 2];
    PassSeed(pts, test);
    for i := 3 to |pts|
      invariant hull == Pass(pts, test, i)
    {
      PassStep(pts, test, i + 1);
      hull := PopFailedTurns(pts, hull, i, test);
      hull := hull + [i];
    }
  }

  lemma {:induction false} PopWhileKeepsInvariant(pts: seq<Point>, stack: seq<nat>, i: nat, test: TurnTest)
    requires 3 <= i < |pts|
    requires StackInvariant(pts, stack, i, test)
    ensures StackInvariant(pts, PopWhile(pts, stack, i, test), i, test)
    decreases |stack|
  {
    if |stack| > 1 && FailsTurn(pts, stack, i, test) {
      PopKeepsInvariant(pts, stack, i, test);
      PopWhileKeepsInvariant(pts, stack[..|stack| - 1], i, test);
    }
  }

  /** A step of the pass takes a stack satisfying the invariant for k - 1 to one satisfying it for k. */
  lemma InvariantStep(pts: seq<Point>, test: TurnTest, k: nat)
    requires 3 < k <= |pts|
    requires StackInvariant(pts, Pass(pts, test, k - 1), k - 1, test)
    ensures StackInvariant(pts, Pass(pts, test, k), k, test)
  {
    var last: nat := k - 1;
    var prev := Pass(pts, test, last);
    PopWhileKeepsInvariant(pts, prev, last, test);
    var kept := PopWhile(pts, prev, last, test);
    PushKeepsInvariant(pts, kept, last, test);
    PassStep(pts, test, k);
  }

  /** Every stack of the pass satisfies the stack invariant. */
  lemma {:induction false} PassKeepsInvariant(pts: seq<Point>, test: TurnTest, k: nat)
    requires 3 <= k <= |pts|
    ensures StackInvariant(pts, Pass(pts, test, k), k, test)
    decreases k
  {
    if k > 3 {
      PassKeepsInvariant(pts, test, k - 1);
      InvariantStep(pts, test, k);
    } else {
      PassSeed(pts, test);
    }
  }

  /** The shape of the result: 0, 1 and 2 vertices give [], [0], [0, 1]; otherwise the
      indices run strictly upward from 0 to n - 1, at least two and at most n of them. */
  lemma HullShape(pts: seq<Point>, test: TurnTest)
    ensures |pts| == 0 ==> HullIndices(pts, test) == []
    ensures |pts| == 1 ==> HullIndices(pts, test) == [0]
    ensures |pts| == 2 ==> HullIndices(pts, test) == [0, 1]
    ensures |pts| >= 3 ==>
      var hull := HullIndices(pts, test);
      2 <= |hull| <= |pts| && hull[0] == 0 && hull[|hull| - 1] == |pts| - 1
    ensures StrictlyIncreasing(HullIndices(pts, test)) && IndicesBelow(HullIndices(pts, test), |pts|)
  {
    if |pts| >= 3 {
      PassKeepsInvariant(pts, test, |pts|);
    }
  }

  /** With the stack-top test every triple of the result whose last index the loop pushed
      turns counter-clockwise. */
  lemma HullTurnsLeft(pts: seq<Point>)
    ensures IndicesBelow(HullIndices(pts, StackTop), |pts|)
    ensures LoopTurnsLeft(pts, HullIndices(pts, StackTop))
  {
    if |pts| >= 3 {
      PassKeepsInvariant(pts, StackTop, |pts|);
    }
  }

  lemma PassSeed(pts: seq<Point>, test: TurnTest)
    requires 3 <= |pts|
    ensures Pass(pts, test, 3) == [0, 1, 2]
  {
  }

  /** One step of the pass: pop at index k - 1, then push it. */
  lemma PassStep(pts: seq<Point>, test: TurnTest, k: nat)
    requires 3 < k <= |pts|
    ensures IndicesBelow(Pass(pts, test, k - 1), |pts|)
    ensures Pass(pts, test, k) == PopWhile(pts, Pass(pts, test, k - 1), k - 1, test) + [k - 1]
  {
  }

  lemma LeftTurnsSeed(pts: seq<Point>)
    requires 3 <= |pts|
    ensures Pass(pts, StackTop, 3) == AllIndices(3)
  {
    assert Pass(pts, StackTop, 3) == [0, 1, 2] == AllIndices(3) by {
      PassSeed(pts, StackTop);
    }
  }

  /** With left turns throughout, a step of the pass that starts from all indices below
      k - 1 ends with all indices below k. */
  lemma LeftTurnsStep(pts: seq<Point>, k: nat)
    requires ConsecutiveLeftTurns(pts)
    requires 3 < k <= |pts|
    requires Pass(pts, StackTop, k - 1) == AllIndices(k - 1)
    ensures Pass(pts, StackTop, k) == AllIndices(k)
  {
    var last: nat := k - 1;
    var prev := AllIndices(last);
    assert PopWhile(pts, prev, last, StackTop) == prev by {
      LeftTurnsNeverPop(pts, last);
    }
    assert Pass(pts, StackTop, k) == PopWhile(pts, prev, last, StackTop) + [last] by {
      PassStep(pts, StackTop, k);
    }
    AllIndicesSnoc(last);
  }

  lemma {:induction false} PassKeepsLeftTurns(pts: seq<Point>, k: nat)
    requires ConsecutiveLeftTurns(pts)
    requires 3 <= k <= |pts|
    ensures Pass(pts, StackTop, k) == AllIndices(k)
    decreases k
  {
    if k > 3 {
      PassKeepsLeftTurns(pts, k - 1);
      LeftTurnsStep(pts, k);
    } else {
      LeftTurnsSeed(pts);
    }
  }

  /** On a polygon whose consecutive vertices all turn counter-clockwise the stack-top
      test pops nothing: every vertex index is kept. */
  lemma HullKeepsLeftTurningPolygon(pts: seq<Point>)
    requires ConsecutiveLeftTurns(pts)
    ensures HullIndices(pts, StackTop) == AllIndices(|pts|)
  {
    if |pts| >= 3 {
      PassKeepsLeftTurns(pts, |pts|);
    } else {
      assert AllIndices(0) == [] && AllIndices(1) == [0] && AllIndices(2) == [0, 1];
    }
  }

  /** As written, the test at the last vertex compares the last vertex with itself,
      which is collinear, so every entry above the bottom is popped. */
  lemma {:induction false} PopWhileAtLastVertex(pts: seq<Point>, stack: seq<nat>)
    requires 4 <= |pts|
    requires |stack| >= 1 && IndicesBelow(stack, |pts|) && stack[0] == 0
    ensures PopWhile(pts, stack, |pts| - 1, PolygonTail) == [0]
    decreases |stack|
  {
    OrientationRepeatedPoint(pts[|pts| - 2], pts[|pts| - 1]);
    if |stack| > 1 {
      PopWhileAtLastVertex(pts, stack[..|stack| - 1]);
    } else {
      assert stack == [0];
    }
  }

  /** As written (turn test on the polygon's last two vertices), every polygon of four or
      more vertices yields only the first and last index. */
  lemma HullAsWrittenCollapses(pts: seq<Point>)
    requires |pts| >= 4
    ensures HullIndices(pts, PolygonTail) == [0, |pts| - 1]
  {
    var prev := Pass(pts, PolygonTail, |pts| - 1);
    PassKeepsInvariant(pts, PolygonTail, |pts| - 1);
    PopWhileAtLastVertex(pts, prev);
  }

  /** Four corners of a square listed counter-clockwise. */
  function Square(): seq<Point>
  {
    [Point(1.0, 0.0), Point(0.0, 1.0), Point(-1.0, 0.0), Point(0.0, -1.0)]
  }

  lemma SquareTurnsLeft()
    ensures ConsecutiveLeftTurns(Square())
  {
    assert Cross(Square()[0], Square()[1], Square()[2]) == -2.0;
    assert Cross(Square()[1], Square()[2], Square()[3]) == -2.0;
  }

  /** On the square the pass as written keeps only the first and last corner, while
      the stack-top test keeps all four. */
  method SquareHulls() returns (asWritten: seq<nat>, stackTop: seq<nat>)
    ensures asWritten == [0, 3]
    ensures stackTop == [0, 1, 2, 3]
  {
    asWritten := ConvexHullIndices(Square(), PolygonTail);
    HullAsWrittenCollapses(Square());
    stackTop := ConvexHullIndices(Square(), StackTop);
    SquareTurnsLeft();
    HullKeepsLeftTurningPolygon(Square());
    assert AllIndices(4) == [0, 1, 2, 3];
  }
}
