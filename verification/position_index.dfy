/** The position arithmetic shared by every ordering domain.

An ordering domain is a finite map from item to position. The three moves
(insert, move, remove) each rewrite the positions of some members by one; a
domain is dense when its positions are exactly `0 .. |D|-1`, each once.
Nothing here knows whether the members are blocks, free exercises or the
exercises of one block.
 */
module PositionIndex {

  /** The reindex pass a mutation triggers, with the position it is about. */
  datatype Shift =
    | InsertAt(target: int)            // make room at `target`
    | MoveTo(from: int, to: int)       // one member travels from `from` to `to`
    | RemoveAt(removed: int)           // close the gap left at `removed`

  /** Whether the reindex loop rewrites a member currently at `p`. */
  predicate Affected(op: Shift, p: int) {
    match op
    case InsertAt(k) => p >= k
    case MoveTo(o, n) => (o < n && o < p <= n) || (n < o && n <= p < o)
    case RemoveAt(r) => p > r
  }

  /** The position a member at `p` holds after the pass. */
  function Apply(op: Shift, p: int): int {
    if !Affected(op, p) then p
    else match op
      case InsertAt(_) => p + 1
      case MoveTo(o, n) => if o < n then p - 1 else p + 1
      case RemoveAt(_) => p - 1
  }

  /** A pass that only ever raises positions (visited in descending order). */
  predicate Raising(op: Shift) {
    op.InsertAt? || (op.MoveTo? && op.to < op.from)
  }

  /** Applies the pass to every member of the domain. */
  function ShiftAll<K>(d: map<K, int>, op: Shift): map<K, int> {
    map x | x in d :: Apply(op, d[x])
  }

  ghost predicate Injective<K>(d: map<K, int>) {
    forall x, y :: x in d && y in d && x != y ==> d[x] != d[y]
  }

  /** No two members share a position and every position lies in `0 .. |d|-1`. */
  ghost predicate Dense<K>(d: map<K, int>) {
    && Injective(d)
    && forall x :: x in d ==> 0 <= d[x] < |d|
  }

  /** The positions `0 .. n-1`. */
  function Range(n: nat): (r: set<int>)
    ensures forall i :: i in r <==> 0 <= i < n
    ensures |r| == n
  {
    if n == 0 then {} else Range(n - 1) + {n - 1}
  }

  /** Insert-at: members at or above `k` go up by one, `x` takes `k`. */
  function Insert<K>(d: map<K, int>, x: K, k: int): map<K, int> {
    ShiftAll(d, InsertAt(k))[x := k]
  }

  /** Move: `x` travels from its position to `to`, the members between follow the move rule. */
  function Move<K>(d: map<K, int>, x: K, to: int): map<K, int>
    requires x in d
  {
    ShiftAll(d, MoveTo(d[x], to))[x := to]
  }

  /** Remove: `x` leaves, members above its position go down by one. */
  function Remove<K>(d: map<K, int>, x: K): map<K, int>
    requires x in d
  {
    ShiftAll(d - {x}, RemoveAt(d[x]))
  }

  // ---------------------------------------------------------------------
  // Density
  // ---------------------------------------------------------------------

  lemma {:induction false} InjectiveValuesSize<K>(d: map<K, int>)
    requires Injective(d)
    ensures |d.Values| == |d|
    decreases |d|
  {
    if |d| > 0 {
      var x :| x in d;
      var d' := d - {x};
      assert d'.Keys == d.Keys - {x};
      InjectiveValuesSize(d');
      forall v | v in d.Values
        ensures v in d'.Values + {d[x]}
      {
        var y :| y in d && d[y] == v;
        if y != x {
          assert d'[y] == v;
        }
      }
      forall v | v in d'.Values
        ensures v in d.Values
      {
        var y :| y in d' && d'[y] == v;
        assert d[y] == v;
      }
      assert d.Values == d'.Values + {d[x]};
      assert d[x] !in d'.Values;
    }
  }

  /** Density: the positions of the members are exactly the integers
      `0 .. |d|-1`, with no duplicate. */
  lemma DenseIsExactRange<K>(d: map<K, int>)
    ensures Dense(d) <==> Injective(d) && d.Values == Range(|d|)
  {
    if Dense(d) {
      InjectiveValuesSize(d);
      assert d.Values <= Range(|d|);
      var gap := Range(|d|) - d.Values;
      assert |gap| == 0;
    }
    if Injective(d) && d.Values == Range(|d|) {
      forall x | x in d
        ensures 0 <= d[x] < |d|
      {
        assert d[x] in d.Values;
      }
    }
  }

  /** Every slot of a dense domain is taken by some member. */
  lemma DenseCoversRange<K>(d: map<K, int>, i: int)
    requires Dense(d)
    requires 0 <= i < |d|
    ensures exists x :: x in d && d[x] == i
  {
    DenseIsExactRange(d);
    assert i in Range(|d|);
  }

  lemma InsertKeepsDense<K>(d: map<K, int>, x: K, k: int)
    requires Dense(d)
    requires x !in d
    requires 0 <= k <= |d|
    ensures |Insert(d, x, k)| == |d| + 1
    ensures Dense(Insert(d, x, k))
  {
    var r := Insert(d, x, k);
    InsertSize(d, x, k);
    forall y | y in r
      ensures 0 <= r[y] < |r|
    {
      InsertInRange(d, x, k, y);
    }
    forall y, z | y in r && z in r && y != z
      ensures r[y] != r[z]
    {
      InsertPairDistinct(d, x, k, y, z);
    }
  }

  lemma InsertSize<K>(d: map<K, int>, x: K, k: int)
    requires x !in d
    ensures Insert(d, x, k).Keys == d.Keys + {x}
    ensures |Insert(d, x, k)| == |d| + 1
  {
    var r := Insert(d, x, k);
    assert r.Keys == d.Keys + {x};
    assert |r.Keys| == |d.Keys| + |{x}|;
  }

  lemma InsertInRange<K>(d: map<K, int>, x: K, k: int, y: K)
    requires forall z :: z in d ==> 0 <= d[z] < |d|
    requires 0 <= k <= |d|
    requires y in d || y == x
    ensures 0 <= Insert(d, x, k)[y] <= |d|
  {
  }

  lemma InsertPairDistinct<K>(d: map<K, int>, x: K, k: int, y: K, z: K)
    requires Injective(d)
    requires x !in d
    requires y in d || y == x
    requires z in d || z == x
    requires y != z
    ensures Insert(d, x, k)[y] != Insert(d, x, k)[z]
  {
    if y != x && z != x {
      assert d[y] != d[z];
    }
  }

  lemma RemoveKeepsDense<K>(d: map<K, int>, x: K)
    requires Dense(d)
    requires x in d
    ensures |Remove(d, x)| == |d| - 1
    ensures Dense(Remove(d, x))
  {
    var d' := d - {x};
    assert d'.Keys == d.Keys - {x};
    var r := Remove(d, x);
    assert r.Keys == d'.Keys;
    forall y | y in r
      ensures 0 <= r[y] < |r|
    {
      assert d[y] != d[x];
    }
  }

  /** A move is a removal followed by an insertion at the target: the
      independent reference definition of the move rule. */
  lemma MoveIsRemoveThenInsert<K>(d: map<K, int>, x: K, to: int)
    requires Injective(d)
    requires x in d
    ensures Move(d, x, to) == Insert(Remove(d, x), x, to)
  {
    var a := Move(d, x, to);
    var b := Insert(Remove(d, x), x, to);
    assert (d - {x}).Keys == d.Keys - {x};
    assert a.Keys == b.Keys;
    forall y | y in a
      ensures a[y] == b[y]
    {
      if y != x {
        assert d[y] != d[x];
      }
    }
  }

  lemma MoveKeepsDense<K>(d: map<K, int>, x: K, to: int)
    requires Dense(d)
    requires x in d
    requires 0 <= to < |d|
    ensures |Move(d, x, to)| == |d|
    ensures Dense(Move(d, x, to))
  {
    MoveIsRemoveThenInsert(d, x, to);
    RemoveKeepsDense(d, x);
    InsertKeepsDense(Remove(d, x), x, to);
  }

  /** Moving a member to the position it already holds changes nothing. */
  lemma MoveInPlace<K>(d: map<K, int>, x: K)
    requires x in d
    ensures Move(d, x, d[x]) == d
  {
    assert Move(d, x, d[x]).Keys == d.Keys;
  }

  /** Appending to a dense domain shifts nobody. */
  lemma AppendShiftsNothing<K>(d: map<K, int>)
    requires Dense(d)
    ensures ShiftAll(d, InsertAt(|d|)) == d
  {
  }

  // ---------------------------------------------------------------------
  // Round trips and frames
  // ---------------------------------------------------------------------

  /** Removing what was just inserted gives back the original domain. */
  lemma RemoveUndoesInsert<K>(d: map<K, int>, x: K, k: int)
    requires x !in d
    ensures Remove(Insert(d, x, k), x) == d
  {
    var i := Insert(d, x, k);
    assert (i - {x}).Keys == d.Keys;
  }

  /** Re-inserting a removed member at its old position restores the domain. */
  lemma InsertUndoesRemove<K>(d: map<K, int>, x: K)
    requires Injective(d)
    requires x in d
    ensures Insert(Remove(d, x), x, d[x]) == d
  {
    var r := Insert(Remove(d, x), x, d[x]);
    assert (d - {x}).Keys == d.Keys - {x};
    assert r.Keys == d.Keys;
    forall y | y in d
      ensures r[y] == d[y]
    {
      if y != x {
        assert d[y] != d[x];
      }
    }
  }

  /** Moving a member back to where it came from restores the domain. */
  lemma MoveBackRestores<K>(d: map<K, int>, x: K, to: int)
    requires Injective(d)
    requires x in d
    ensures Move(Move(d, x, to), x, d[x]) == d
  {
    var m := Move(d, x, to);
    var r := Move(m, x, d[x]);
    assert r.Keys == d.Keys;
    forall y | y in d
      ensures r[y] == d[y]
    {
      if y != x {
        assert d[y] != d[x];
      }
    }
  }

  /** Insert keeps the relative order of the members already present, and
      puts the newcomer strictly between its neighbours. */
  lemma InsertKeepsOrder<K>(d: map<K, int>, x: K, k: int)
    requires x !in d
    ensures forall y, z :: y in d && z in d ==>
              (d[y] < d[z] <==> Insert(d, x, k)[y] < Insert(d, x, k)[z])
    ensures forall y :: y in d ==>
              (d[y] < k <==> Insert(d, x, k)[y] < Insert(d, x, k)[x])
  {
  }

  /** Remove keeps the relative order of the members that stay. */
  lemma RemoveKeepsOrder<K>(d: map<K, int>, x: K)
    requires Injective(d)
    requires x in d
    ensures forall y, z :: y in d && z in d && y != x && z != x ==>
              (d[y] < d[z] <==> Remove(d, x)[y] < Remove(d, x)[z])
  {
    forall y, z | y in d && z in d && y != x && z != x
      ensures d[y] < d[z] <==> Remove(d, x)[y] < Remove(d, x)[z]
    {
      assert d[y] != d[x] && d[z] != d[x];
    }
  }

  /** A move leaves members outside the travelled span where they were,
      shifts every other bystander by exactly one, and keeps the relative
      order of all bystanders. */
  lemma MoveFrame<K>(d: map<K, int>, x: K, to: int)
    requires Injective(d)
    requires x in d
    ensures Move(d, x, to)[x] == to
    ensures forall y :: y in d && y != x && ((d[y] < d[x] && d[y] < to) || (d[y] > d[x] && d[y] > to))
              ==> Move(d, x, to)[y] == d[y]
    ensures forall y :: y in d && y != x ==>
              d[y] - 1 <= Move(d, x, to)[y] <= d[y] + 1
    ensures forall y, z :: y in d && z in d && y != x && z != x ==>
              (d[y] < d[z] <==> Move(d, x, to)[y] < Move(d, x, to)[z])
  {
    forall y, z | y in d && z in d && y != x && z != x
      ensures d[y] < d[z] <==> Move(d, x, to)[y] < Move(d, x, to)[z]
    {
      assert d[y] != d[x] && d[z] != d[x];
    }
  }
}
