/** The reindex loops item by item.

The composers do not shift a domain in one step: they sort the members by
position and rewrite them one at a time, and the block store commits each
rewrite on its own. The states between two rewrites are therefore visible to
the database, whose blocks table keeps `(session_id, position)` unique.

`Partial(d, order, op, i)` is the domain after the first `i` members of
`order` have been visited. `RunLoop` is the loop itself; the lemmas say which
visiting orders keep every intermediate state free of duplicate positions:
descending for an insertion, ascending for a removal, and, for a move, only
when the moving member is first taken out of the way.
 */
module ShiftLoops {
  import opened PositionIndex

  /** `order` visits every member of `d` exactly once. */
  predicate Lists<K>(d: map<K, int>, order: seq<K>) {
    && (forall x :: x in d ==> x in order)
    && (forall i :: 0 <= i < |order| ==> order[i] in d)
    && (forall i, j :: 0 <= i < j < |order| ==> order[i] != order[j])
  }

  predicate Ascending<K>(d: map<K, int>, order: seq<K>)
    requires Lists(d, order)
  {
    forall i, j :: 0 <= i < j < |order| ==> d[order[i]] <= d[order[j]]
  }

  predicate Descending<K>(d: map<K, int>, order: seq<K>)
    requires Lists(d, order)
  {
    forall i, j :: 0 <= i < j < |order| ==> d[order[i]] >= d[order[j]]
  }

  /** The domain once the first `i` members of `order` have been visited. */
  function Partial<K>(d: map<K, int>, order: seq<K>, op: Shift, i: nat): map<K, int>
    requires i <= |order|
  {
    map x | x in d :: if x in order[..i] then Apply(op, d[x]) else d[x]
  }

  /** The source's loop: visit the members in `order`, rewrite the ones the
      pass affects. `trace[i]` is the domain after `i` visits. */
  method RunLoop<K>(d: map<K, int>, order: seq<K>, op: Shift) returns (r: map<K, int>, trace: seq<map<K, int>>)
    requires Lists(d, order)
    ensures |trace| == |order| + 1
    ensures forall i :: 0 <= i <= |order| ==> trace[i] == Partial(d, order, op, i)
    ensures trace[0] == d
    ensures r == trace[|order|]
    ensures r == ShiftAll(d, op)
  {
    var cur := d;
    trace := [d];
    PartialStart(d, order, op);
    var i := 0;
    while i < |order|
      invariant 0 <= i <= |order|
      invariant |trace| == i + 1
      invariant forall j :: 0 <= j <= i ==> trace[j] == Partial(d, order, op, j)
      invariant cur == Partial(d, order, op, i)
    {
      var x := order[i];
      PartialStep(d, order, op, i);
      if Affected(op, cur[x]) {
        cur := cur[x := Apply(op, cur[x])];
      }
      i := i + 1;
      trace := trace + [cur];
    }
    PartialComplete(d, order, op);
    r := cur;
  }

  lemma PartialStart<K>(d: map<K, int>, order: seq<K>, op: Shift)
    ensures Partial(d, order, op, 0) == d
  {
  }

  /** One visit: the member at `order[i]` still holds its first position,
      and it is rewritten exactly when the pass affects it. */
  lemma PartialStep<K>(d: map<K, int>, order: seq<K>, op: Shift, i: nat)
    requires Lists(d, order)
    requires i < |order|
    ensures order[i] in Partial(d, order, op, i)
    ensures Partial(d, order, op, i)[order[i]] == d[order[i]]
    ensures var cur := Partial(d, order, op, i);
            var x := order[i];
            Partial(d, order, op, i + 1) == if Affected(op, cur[x]) then cur[x := Apply(op, cur[x])] else cur
  {
    var x := order[i];
    assert x !in order[..i] by {
      if x in order[..i] {
        var ix := PrefixIndex(order, i, x);
      }
    }
    assert order[..i + 1] == order[..i] + [x];
  }

  /** Every visiting order ends on the whole pass. */
  lemma PartialComplete<K>(d: map<K, int>, order: seq<K>, op: Shift)
    requires Lists(d, order)
    ensures Partial(d, order, op, |order|) == ShiftAll(d, op)
  {
    assert order[..|order|] == order;
  }

  lemma PrefixIndex<K>(order: seq<K>, i: nat, x: K) returns (ix: nat)
    requires i <= |order|
    requires x in order[..i]
    ensures ix < i && order[ix] == x
  {
    ix :| 0 <= ix < i && order[..i][ix] == x;
  }

  lemma SuffixIndex<K>(order: seq<K>, i: nat, x: K) returns (ix: nat)
    requires i <= |order|
    requires x in order && x !in order[..i]
    ensures i <= ix < |order| && order[ix] == x
  {
    assert order == order[..i] + order[i..];
    var k :| 0 <= k < |order| - i && order[i..][k] == x;
    ix := i + k;
  }

  // ---------------------------------------------------------------------
  // Insertion and removal: the source's orders are safe
  // ---------------------------------------------------------------------

  /** Raising positions from the top down (as `create_block` and
      `create_exercise` do) never puts two members on one position. */
  lemma {:induction false} InsertDescendingStepsInjective<K>(d: map<K, int>, order: seq<K>, k: int, i: nat)
    requires Injective(d)
    requires Lists(d, order) && Descending(d, order)
    requires i <= |order|
    ensures Injective(Partial(d, order, InsertAt(k), i))
  {
    var p := Partial(d, order, InsertAt(k), i);
    forall x, y | x in p && y in p && x != y
      ensures p[x] != p[y]
    {
      if x in order[..i] && y !in order[..i] && d[x] >= k {
        var ix := PrefixIndex(order, i, x);
        var iy := SuffixIndex(order, i, y);
        assert d[x] >= d[y];
      } else if y in order[..i] && x !in order[..i] && d[y] >= k {
        var iy := PrefixIndex(order, i, y);
        var ix := SuffixIndex(order, i, x);
        assert d[y] >= d[x];
      }
    }
  }

  /** Lowering positions from the bottom up (as `_shift_positions` and
      `delete_exercise` do), once the removed member is gone, never puts two
      members on one position. */
  lemma {:induction false} RemoveAscendingStepsInjective<K>(d: map<K, int>, order: seq<K>, removed: int, i: nat)
    requires Injective(d)
    requires forall x :: x in d ==> d[x] != removed
    requires Lists(d, order) && Ascending(d, order)
    requires i <= |order|
    ensures Injective(Partial(d, order, RemoveAt(removed), i))
  {
    var p := Partial(d, order, RemoveAt(removed), i);
    forall x, y | x in p && y in p && x != y
      ensures p[x] != p[y]
    {
      if x in order[..i] && y !in order[..i] && d[x] > removed {
        var ix := PrefixIndex(order, i, x);
        var iy := SuffixIndex(order, i, y);
        assert d[x] <= d[y];
      } else if y in order[..i] && x !in order[..i] && d[y] > removed {
        var iy := PrefixIndex(order, i, y);
        var ix := SuffixIndex(order, i, x);
        assert d[y] <= d[x];
      }
    }
  }

  // ---------------------------------------------------------------------
  // Moves: the source's loop collides, a parked member does not
  // ---------------------------------------------------------------------

  /** As written, the moving member keeps its old position while the loop
      runs. When the loop is done, whatever the order, the neighbour that
      closed the gap sits on that same old position. */
  lemma MoveLoopCollides<K>(d: map<K, int>, order: seq<K>, x: K, target: int)
    requires Dense(d)
    requires Lists(d, order)
    requires x in d && 0 <= target < |d| && target != d[x]
    ensures exists y :: y in d && y != x
                        && Partial(d, order, MoveTo(d[x], target), |order|)[y] == d[x]
                        && Partial(d, order, MoveTo(d[x], target), |order|)[x] == d[x]
  {
    var o := d[x];
    PartialComplete(d, order, MoveTo(o, target));
    var slot := if o < target then o + 1 else o - 1;
    DenseCoversRange(d, slot);
    var y :| y in d && d[y] == slot;
    assert ShiftAll(d, MoveTo(o, target))[y] == o;
  }

  /** The position a member waits on while the others are shifted. */
  const Parking: int := -1

  /** With the moving member parked below every position, a move visited in
      the source's order (ascending when moving down the list, descending
      when moving up) never puts two members on one position. */
  lemma {:induction false} ParkedMoveStepsInjective<K>(d: map<K, int>, order: seq<K>, x: K, target: int, i: nat)
    requires Dense(d)
    requires x in d && 0 <= target
    requires Lists(d, order)
    requires d[x] < target ==> Ascending(d, order)
    requires target < d[x] ==> Descending(d, order)
    requires i <= |order|
    ensures Injective(Partial(d[x := Parking], order, MoveTo(d[x], target), i))
  {
    var o := d[x];
    var op := MoveTo(o, target);
    var d' := d[x := Parking];
    assert d'.Keys == d.Keys;
    assert Lists(d', order);
    var p := Partial(d', order, op, i);
    forall y, z | y in p && z in p && y != z
      ensures p[y] != p[z]
    {
      if y == x || z == x {
        assert p[x] == Parking;
      } else if y in order[..i] && Affected(op, d[y]) && !(z in order[..i] && Affected(op, d[z])) {
        var iy := PrefixIndex(order, i, y);
        if z !in order[..i] {
          var iz := SuffixIndex(order, i, z);
        }
      } else if z in order[..i] && Affected(op, d[z]) && !(y in order[..i] && Affected(op, d[y])) {
        var iz := PrefixIndex(order, i, z);
        if y !in order[..i] {
          var iy := SuffixIndex(order, i, y);
        }
      }
    }
  }

  /** The corrected move: park the member, run the source's loop, then put
      the member at its target. The result is the move rule, and no state
      the loop passes through has two members on one position. */
  method ParkedMove<K>(d: map<K, int>, order: seq<K>, x: K, target: int) returns (r: map<K, int>, trace: seq<map<K, int>>)
    requires Dense(d)
    requires x in d && 0 <= target
    requires Lists(d, order)
    requires d[x] < target ==> Ascending(d, order)
    requires target < d[x] ==> Descending(d, order)
    ensures r == Move(d, x, target)
    ensures |trace| == |order| + 1
    ensures forall i :: 0 <= i < |trace| ==> Injective(trace[i])
  {
    ParkedKeys(d, order, x);
    var loopEnd;
    loopEnd, trace := RunLoop(d[x := Parking], order, MoveTo(d[x], target));
    forall i | 0 <= i < |trace|
      ensures Injective(trace[i])
    {
      ParkedMoveStepsInjective(d, order, x, target, i);
    }
    ParkedMoveEnds(d, x, target);
    r := loopEnd[x := target];
  }

  lemma ParkedKeys<K>(d: map<K, int>, order: seq<K>, x: K)
    requires x in d && Lists(d, order)
    ensures Lists(d[x := Parking], order)
  {
    assert d[x := Parking].Keys == d.Keys;
  }

  /** Putting the parked member at its target after the loop gives the move. */
  lemma ParkedMoveEnds<K>(d: map<K, int>, x: K, target: int)
    requires Dense(d)
    requires x in d && 0 <= target
    ensures ShiftAll(d[x := Parking], MoveTo(d[x], target))[x := target] == Move(d, x, target)
  {
    var lhs := ShiftAll(d[x := Parking], MoveTo(d[x], target))[x := target];
    var rhs := Move(d, x, target);
    assert lhs.Keys == rhs.Keys;
    forall y | y in lhs
      ensures lhs[y] == rhs[y]
    {
    }
  }
}
