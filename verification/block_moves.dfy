/** Moving a block, one committed row at a time.

`update_block` rewrites the shifted blocks and free exercises one by one, and
the block store commits every rewrite, while the moved block keeps its old
`position` until the loop is over. The blocks table keeps `(session_id,
position)` unique, so the first neighbour written onto the vacated position
meets the moved block still sitting there. The end state is the one
`BlockService.UpdateBlock` describes; what goes wrong is a state in between.

The corrected update parks the moved block outside the domain first
(`ShiftLoops.ParkedMove`); `ParkedUpdateBlock` shows that it reaches the same
end state with every intermediate state collision-free.
 */
module BlockMoves {
  import opened Outcomes
  import opened PositionIndex
  import opened Store
  import opened Reindex
  import opened ShiftLoops
  import opened BlockService

  /** The blocks table's constraint on one session: no two blocks share a
      position. */
  ghost predicate BlockSlotsUnique(st: State, s: SessionId) {
    forall a, b :: a in st.blocks && b in st.blocks && a != b
                   && st.blocks[a].session == s && st.blocks[b].session == s
                   ==> st.blocks[a].position != st.blocks[b].position
  }

  /** A request that only moves block `id` to `to`. */
  function MoveRequest(to: int): BlockUpdate {
    BlockUpdate(None, Some(to), None, None)
  }

  lemma DenseBlockSlots(st: State, s: SessionId)
    requires Dense(SessionAxis(st, s))
    ensures BlockSlotsUnique(st, s)
  {
    var d := SessionAxis(st, s);
    forall a, b | a in st.blocks && b in st.blocks && a != b
                  && st.blocks[a].session == s && st.blocks[b].session == s
      ensures st.blocks[a].position != st.blocks[b].position
    {
      assert OnSessionAxis(st, s, BlockItem(a)) && OnSessionAxis(st, s, BlockItem(b));
      assert d[BlockItem(a)] == st.blocks[a].position;
      assert d[BlockItem(b)] == st.blocks[b].position;
    }
  }

  /** As written: in a well-formed session, a valid move of a block whose
      neighbour towards the target is a block succeeds in the end, but once
      the loop is done (and that neighbour's row committed) the neighbour and
      the moved block both hold the moved block's old position, which the
      constraint held before. */
  lemma UpdateBlockLeavesCollision(st: State, id: BlockId, to: int, neighbour: BlockId)
    requires WellFormed(st)
    requires id in st.blocks
    requires to != st.blocks[id].position
    requires 0 <= to <= SessionSize(st, st.blocks[id].session) - 1
    requires neighbour in st.blocks && st.blocks[neighbour].session == st.blocks[id].session
    requires st.blocks[neighbour].position ==
               if st.blocks[id].position < to then st.blocks[id].position + 1 else st.blocks[id].position - 1
    ensures UpdateBlock(st, id, MoveRequest(to)).Ok?
    ensures BlockSlotsUnique(st, st.blocks[id].session)
    ensures var o := st.blocks[id].position;
            var mid := ShiftSession(st, st.blocks[id].session, ByPosition, MoveTo(o, to));
            && neighbour != id
            && mid.blocks[id].position == o
            && mid.blocks[neighbour].position == o
            && !BlockSlotsUnique(mid, st.blocks[id].session)
  {
    DenseBlockSlots(st, st.blocks[id].session);
  }

  /** The smallest case: blocks 1 and 2 of session 1 at positions 0 and 1;
      moving block 1 to position 1 is accepted, ends with the two swapped,
      and passes through a state with both at 0. */
  lemma UpdateBlockCollisionWitness()
    ensures var st := State(map[1 := Session(7)],
                            map[1 := Block(1, "emom", 0, None, None), 2 := Block(1, "amrap", 1, None, None)],
                            map[]);
            var mid := ShiftSession(st, 1, ByPosition, MoveTo(0, 1));
            var r := UpdateBlock(st, 1, MoveRequest(1));
            && r.Ok?
            && r.value.blocks[1].position == 1 && r.value.blocks[2].position == 0
            && mid.blocks[1].position == 0 && mid.blocks[2].position == 0
  {
    var st := State(map[1 := Session(7)],
                    map[1 := Block(1, "emom", 0, None, None), 2 := Block(1, "amrap", 1, None, None)],
                    map[]);
    assert BlocksOf(st, 1) == {1, 2};
    assert FreeOf(st, 1) == {};
  }

  /** Corrected: with the moved block parked, the per-row loop over its
      session's domain, visited in the source's order, passes only through
      collision-free states, and putting the block at its target afterwards
      gives exactly the domain `UpdateBlock` produces. */
  lemma ParkedUpdateBlock(st: State, id: BlockId, to: int, order: seq<Item>)
    requires WellFormed(st)
    requires id in st.blocks
    requires 0 <= to <= SessionSize(st, st.blocks[id].session) - 1
    requires Lists(SessionAxis(st, st.blocks[id].session), order)
    requires st.blocks[id].position < to ==> Ascending(SessionAxis(st, st.blocks[id].session), order)
    requires to < st.blocks[id].position ==> Descending(SessionAxis(st, st.blocks[id].session), order)
    ensures UpdateBlock(st, id, MoveRequest(to)).Ok?
    ensures var s := st.blocks[id].session;
            var d := SessionAxis(st, s);
            var parked := d[BlockItem(id) := Parking];
            var op := MoveTo(st.blocks[id].position, to);
            && (forall i :: 0 <= i <= |order| ==> Injective(Partial(parked, order, op, i)))
            && Partial(parked, order, op, |order|)[BlockItem(id) := to]
               == SessionAxis(UpdateBlock(st, id, MoveRequest(to)).value, s)
  {
    var s := st.blocks[id].session;
    var d := SessionAxis(st, s);
    var x := BlockItem(id);
    assert OnSessionAxis(st, s, x);
    assert d[x] == st.blocks[id].position;
    var parked := d[x := Parking];
    var op := MoveTo(d[x], to);
    forall i | 0 <= i <= |order|
      ensures Injective(Partial(parked, order, op, i))
    {
      ParkedMoveStepsInjective(d, order, x, to, i);
    }
    ParkedKeys(d, order, x);
    PartialComplete(d[x := Parking], order, MoveTo(d[x], to));
    ParkedMoveEnds(d, x, to);
    UpdateBlockKeepsDensity(st, id, MoveRequest(to));
  }
}
