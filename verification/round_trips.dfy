/** Round trips through the composers, stated on whole states: deleting
what was just created gives back the state the create started from, and
moving a block back to where it came from restores every position.
 */
module RoundTrips {
  import opened Outcomes
  import opened PositionIndex
  import opened Store
  import opened Reindex
  import opened BlockService
  import ES = ExerciseService

  // ---------------------------------------------------------------------
  // Passes that cancel or do nothing
  // ---------------------------------------------------------------------

  /** Closing the gap at `k` undoes making room at `k`, record by record,
      provided every item the pass visits has a position to shift. */
  lemma ShiftSessionInsertRemove(st: State, s: SessionId, t: FreeTest, k: int)
    requires forall e :: e in st.exercises && OnFreeAxis(st.exercises[e], s, t) ==> st.exercises[e].position.Some?
    ensures ShiftSession(ShiftSession(st, s, t, InsertAt(k)), s, t, RemoveAt(k)) == st
  {
    var st1 := ShiftSession(st, s, t, InsertAt(k));
    var st2 := ShiftSession(st1, s, t, RemoveAt(k));
    assert st2.blocks == st.blocks;
    forall e | e in st.exercises
      ensures st2.exercises[e] == st.exercises[e]
    {
      var x := st.exercises[e];
      if OnFreeAxis(x, s, t) && Affected(InsertAt(k), OrZero(x.position)) {
        assert st1.exercises[e] == x.(position := Some(x.position.value + 1));
      }
    }
    assert st2.exercises == st.exercises;
  }

  /** A session-level pass that affects none of the items it visits leaves
      the state as it was. */
  lemma ShiftSessionIdle(st: State, s: SessionId, t: FreeTest, op: Shift)
    requires forall b :: b in st.blocks && st.blocks[b].session == s ==> !Affected(op, st.blocks[b].position)
    requires forall e :: e in st.exercises && OnFreeAxis(st.exercises[e], s, t) ==>
               !Affected(op, OrZero(st.exercises[e].position))
    ensures ShiftSession(st, s, t, op) == st
  {
    assert ShiftSession(st, s, t, op).blocks == st.blocks;
    assert ShiftSession(st, s, t, op).exercises == st.exercises;
  }

  /** In a well-formed state nobody sits at or above the size of a session
      domain, so closing a gap there moves nobody. */
  lemma RemoveAtEndIsIdle(st: State, s: SessionId, t: FreeTest)
    requires WellFormed(st)
    ensures ShiftSession(st, s, t, RemoveAt(SessionSize(st, s))) == st
  {
    var d := SessionAxis(st, s);
    SessionAxisSize(st, s);
    forall b | b in st.blocks && st.blocks[b].session == s
      ensures !Affected(RemoveAt(SessionSize(st, s)), st.blocks[b].position)
    {
      assert BlockItem(b) in d;
    }
    forall e | e in st.exercises && OnFreeAxis(st.exercises[e], s, t)
      ensures !Affected(RemoveAt(SessionSize(st, s)), OrZero(st.exercises[e].position))
    {
      assert FreeItem(e) in d;
    }
    ShiftSessionIdle(st, s, t, RemoveAt(SessionSize(st, s)));
  }

  /** The in-block counterpart of `ShiftSessionInsertRemove`. The closing
      pass may list by session and skip an exercise that is not there. */
  lemma ShiftMembersInsertRemove(st: State, b: BlockId, s: SessionId, skip: ExerciseId, k: int)
    requires skip !in st.exercises
    requires forall e :: e in st.exercises && st.exercises[e].block == Some(b) ==>
               st.exercises[e].session == s && st.exercises[e].positionInBlock.Some?
    ensures ShiftMembers(ShiftMembers(st, Some(b), None, None, InsertAt(k)), Some(b), Some(s), Some(skip), RemoveAt(k)) == st
  {
    var st1 := ShiftMembers(st, Some(b), None, None, InsertAt(k));
    var st2 := ShiftMembers(st1, Some(b), Some(s), Some(skip), RemoveAt(k));
    forall e | e in st.exercises
      ensures st2.exercises[e] == st.exercises[e]
    {
      var x := st.exercises[e];
      if x.block == Some(b) && Affected(InsertAt(k), OrZero(x.positionInBlock)) {
        assert st1.exercises[e] == x.(positionInBlock := Some(x.positionInBlock.value + 1));
      }
    }
    assert st2.exercises == st.exercises;
  }

  /** The in-block counterpart of `RemoveAtEndIsIdle`. */
  lemma BlockRemoveAtEndIsIdle(st: State, b: BlockId, s: SessionId, skip: ExerciseId)
    requires WellFormed(st)
    ensures ShiftMembers(st, Some(b), Some(s), Some(skip), RemoveAt(CountByBlock(st, b))) == st
  {
    var d := BlockAxis(st, b);
    BlockAxisSize(st, b);
    forall e | e in st.exercises && st.exercises[e].block == Some(b)
      ensures !Affected(RemoveAt(CountByBlock(st, b)), OrZero(st.exercises[e].positionInBlock))
    {
      assert e in d;
    }
    assert ShiftMembers(st, Some(b), Some(s), Some(skip), RemoveAt(CountByBlock(st, b))).exercises == st.exercises;
  }

  // ---------------------------------------------------------------------
  // Service-level round trips
  // ---------------------------------------------------------------------

  /** `delete_block` undoes `create_block`: every other block and every
      free exercise gets its position back. */
  lemma DeleteUndoesCreateBlock(st: State, s: SessionId, kind: Opaque, position: Option<int>,
                                duration: Option<Opaque>, notes: Option<string>, newId: BlockId)
    requires WellFormed(st)
    requires FreshBlockId(st, newId)
    requires CreateBlock(st, s, kind, position, duration, notes, newId).Ok?
    ensures DeleteBlock(CreateBlock(st, s, kind, position, duration, notes, newId).value, newId) == Ok(st)
  {
    var r := CreateBlock(st, s, kind, position, duration, notes, newId).value;
    var k := position.GetOr(SessionSize(st, s));
    var st1 := if position.None? then st else ShiftSession(st, s, ByBlockId, InsertAt(k));
    assert r == st1.(blocks := st1.blocks[newId := Block(s, kind, k, duration, notes)]);
    assert r.(blocks := r.blocks - {newId}) == st1 by {
      assert st1.blocks.Keys == st.blocks.Keys;
      assert r.blocks - {newId} == st1.blocks;
    }
    assert DeleteBlock(r, newId) == Ok(ShiftSession(st1, s, ByBlockId, RemoveAt(k)));
    if position.None? {
      RemoveAtEndIsIdle(st, s, ByBlockId);
    } else {
      ShiftSessionInsertRemove(st, s, ByBlockId, k);
    }
  }

  /** `delete_exercise` undoes `create_exercise`, in a block or free. */
  lemma DeleteUndoesCreateExercise(st: State, req: ES.ExerciseCreate, newId: ExerciseId)
    requires WellFormed(st)
    requires newId !in st.exercises
    requires ES.CreateExercise(st, req, newId).Ok?
    ensures ES.DeleteExercise(ES.CreateExercise(st, req, newId).value, newId) == Ok(st)
  {
    if req.block.Some? {
      DeleteUndoesCreateInBlock(st, req, newId);
    } else {
      DeleteUndoesCreateFree(st, req, newId);
    }
  }

  lemma DeleteUndoesCreateInBlock(st: State, req: ES.ExerciseCreate, newId: ExerciseId)
    requires WellFormed(st)
    requires newId !in st.exercises
    requires ES.CreateExercise(st, req, newId).Ok? && req.block.Some?
    ensures ES.DeleteExercise(ES.CreateExercise(st, req, newId).value, newId) == Ok(st)
  {
    var r := ES.CreateExercise(st, req, newId).value;
    var s := req.session.value;
    var b := req.block.value;
    var k := req.positionInBlock.GetOr(CountByBlock(st, b));
    var st1 := if req.positionInBlock.None? then st else ShiftMembers(st, Some(b), None, None, InsertAt(k));
    assert r == st1.(exercises := st1.exercises[newId := Exercise(s, Some(b), req.measures, None, Some(k))]);
    assert st1.exercises.Keys == st.exercises.Keys;
    assert r.(exercises := r.exercises - {newId}) == st1;
    if req.positionInBlock.None? {
      BlockRemoveAtEndIsIdle(st, b, s, newId);
    } else {
      ShiftMembersInsertRemove(st, b, s, newId, k);
    }
  }

  lemma DeleteUndoesCreateFree(st: State, req: ES.ExerciseCreate, newId: ExerciseId)
    requires WellFormed(st)
    requires newId !in st.exercises
    requires ES.CreateExercise(st, req, newId).Ok? && req.block.None?
    ensures ES.DeleteExercise(ES.CreateExercise(st, req, newId).value, newId) == Ok(st)
  {
    var r := ES.CreateExercise(st, req, newId).value;
    var s := req.session.value;
    var k := req.position.GetOr(SessionSize(st, s));
    var st1 := if req.position.None? then st else ShiftSession(st, s, ByPosition, InsertAt(k));
    assert r == st1.(exercises := st1.exercises[newId := Exercise(s, None, req.measures, Some(k), req.positionInBlock)]);
    assert st1.exercises.Keys == st.exercises.Keys;
    assert r.(exercises := r.exercises - {newId}) == st1;
    if req.position.None? {
      RemoveAtEndIsIdle(st, s, ByPosition);
    } else {
      ShiftSessionInsertRemove(st, s, ByPosition, k);
    }
  }

  /** A bystander's position survives a move there and back. */
  lemma ApplyMoveBack(o: int, t: int, p: int)
    requires p != o
    ensures Apply(MoveTo(t, o), Apply(MoveTo(o, t), p)) == p
  {
  }

  /** A session-level move followed by the reverse move restores every
      record other than the moved one, when no other visited item sits at
      the moved item's old position. */
  lemma ShiftSessionMoveBack(st: State, s: SessionId, o: int, t: int, id: BlockId)
    requires id in st.blocks && st.blocks[id].session == s
    requires forall b :: b in st.blocks && b != id && st.blocks[b].session == s ==> st.blocks[b].position != o
    requires forall e :: e in st.exercises && OnFreeAxis(st.exercises[e], s, ByPosition) ==>
               OrZero(st.exercises[e].position) != o
    ensures var st1 := ShiftSession(st, s, ByPosition, MoveTo(o, t));
            var st2 := ShiftSession(st1.(blocks := st1.blocks[id := st.blocks[id].(position := t)]), s, ByPosition, MoveTo(t, o));
            st2.(blocks := st2.blocks[id := st.blocks[id]]) == st
  {
    var st1 := ShiftSession(st, s, ByPosition, MoveTo(o, t));
    var st2 := ShiftSession(st1.(blocks := st1.blocks[id := st.blocks[id].(position := t)]), s, ByPosition, MoveTo(t, o));
    MoveBackBlocks(st, s, o, t, id);
    MoveBackExercises(st, s, o, t, id);
    assert st2.sessions == st.sessions;
  }

  lemma MoveBackBlocks(st: State, s: SessionId, o: int, t: int, id: BlockId)
    requires id in st.blocks && st.blocks[id].session == s
    requires forall b :: b in st.blocks && b != id && st.blocks[b].session == s ==> st.blocks[b].position != o
    ensures var st1 := ShiftSession(st, s, ByPosition, MoveTo(o, t));
            var st2 := ShiftSession(st1.(blocks := st1.blocks[id := st.blocks[id].(position := t)]), s, ByPosition, MoveTo(t, o));
            st2.blocks[id := st.blocks[id]] == st.blocks
  {
    var st1 := ShiftSession(st, s, ByPosition, MoveTo(o, t));
    var st2 := ShiftSession(st1.(blocks := st1.blocks[id := st.blocks[id].(position := t)]), s, ByPosition, MoveTo(t, o));
    var r := st2.blocks[id := st.blocks[id]];
    assert r.Keys == st.blocks.Keys;
    forall b | b in st.blocks
      ensures r[b] == st.blocks[b]
    {
      if b != id && st.blocks[b].session == s {
        ApplyMoveBack(o, t, st.blocks[b].position);
      }
    }
  }

  lemma MoveBackExercises(st: State, s: SessionId, o: int, t: int, id: BlockId)
    requires id in st.blocks
    requires forall e :: e in st.exercises && OnFreeAxis(st.exercises[e], s, ByPosition) ==>
               OrZero(st.exercises[e].position) != o
    ensures var st1 := ShiftSession(st, s, ByPosition, MoveTo(o, t));
            var st2 := ShiftSession(st1.(blocks := st1.blocks[id := st.blocks[id].(position := t)]), s, ByPosition, MoveTo(t, o));
            st2.exercises == st.exercises
  {
    var st1 := ShiftSession(st, s, ByPosition, MoveTo(o, t));
    var st2 := ShiftSession(st1.(blocks := st1.blocks[id := st.blocks[id].(position := t)]), s, ByPosition, MoveTo(t, o));
    assert st2.exercises.Keys == st.exercises.Keys;
    forall e | e in st.exercises
      ensures st2.exercises[e] == st.exercises[e]
    {
      var x := st.exercises[e];
      if OnFreeAxis(x, s, ByPosition) {
        ApplyMoveBack(o, t, x.position.value);
      }
    }
  }

  /** Moving a block with `update_block` and then moving it back to its old
      position restores the whole state. */
  lemma MoveBlockBackRestores(st: State, id: BlockId, t: int)
    requires WellFormed(st)
    requires id in st.blocks
    requires UpdateBlock(st, id, BlockUpdate(None, Some(t), None, None)).Ok?
    ensures var st1 := UpdateBlock(st, id, BlockUpdate(None, Some(t), None, None)).value;
            UpdateBlock(st1, id, BlockUpdate(None, Some(st.blocks[id].position), None, None)) == Ok(st)
  {
    var bl := st.blocks[id];
    var st1 := UpdateBlock(st, id, BlockUpdate(None, Some(t), None, None)).value;
    if t == bl.position {
      assert st1 == st.(blocks := st.blocks[id := bl]);
      assert st.blocks[id := bl] == st.blocks;
    } else {
      var s := bl.session;
      assert OnSessionAxis(st, s, BlockItem(id));
      assert SessionAxis(st, s)[BlockItem(id)] == bl.position;
      SessionAxisSize(st, s);
      OriginHeldOnlyByMover(st, id);
      MovedBlockKeepsSize(st, id, t);
      ShiftSessionMoveBack(st, s, bl.position, t, id);
      assert st1.blocks[id] == bl.(position := t);
      UpdateBlockRealMove(st1, id, bl.position);
    }
  }

  /** What `update_block` does on a real move that passes the range check. */
  lemma UpdateBlockRealMove(st: State, id: BlockId, t: int)
    requires id in st.blocks && t != st.blocks[id].position
    requires 0 <= t <= SessionSize(st, st.blocks[id].session) - 1
    ensures var bl := st.blocks[id];
            var sh := ShiftSession(st, bl.session, ByPosition, MoveTo(bl.position, t));
            UpdateBlock(st, id, BlockUpdate(None, Some(t), None, None)) == Ok(sh.(blocks := sh.blocks[id := bl.(position := t)]))
  {
  }

  /** In a dense domain no other item shares the moved block's position. */
  lemma OriginHeldOnlyByMover(st: State, id: BlockId)
    requires ExclusiveAll(st)
    requires id in st.blocks
    requires Dense(SessionAxis(st, st.blocks[id].session))
    ensures var s := st.blocks[id].session;
            forall b :: b in st.blocks && b != id && st.blocks[b].session == s ==>
              st.blocks[b].position != st.blocks[id].position
    ensures var s := st.blocks[id].session;
            forall e :: e in st.exercises && OnFreeAxis(st.exercises[e], s, ByPosition) ==>
              OrZero(st.exercises[e].position) != st.blocks[id].position
  {
    var s := st.blocks[id].session;
    var d := SessionAxis(st, s);
    assert OnSessionAxis(st, s, BlockItem(id));
    assert d[BlockItem(id)] == st.blocks[id].position;
    forall b | b in st.blocks && b != id && st.blocks[b].session == s
      ensures st.blocks[b].position != st.blocks[id].position
    {
      assert OnSessionAxis(st, s, BlockItem(b));
      assert d[BlockItem(b)] == st.blocks[b].position;
    }
    forall e | e in st.exercises && OnFreeAxis(st.exercises[e], s, ByPosition)
      ensures OrZero(st.exercises[e].position) != st.blocks[id].position
    {
      assert Exclusive(st.exercises[e]);
      assert OnSessionAxis(st, s, FreeItem(e));
      assert d[FreeItem(e)] == OrZero(st.exercises[e].position);
    }
  }

  /** A real move of a block is the session pass followed by storing the
      block at its target, and the session keeps its size. */
  lemma MovedBlockKeepsSize(st: State, id: BlockId, t: int)
    requires ExclusiveAll(st)
    requires id in st.blocks && t != st.blocks[id].position
    requires UpdateBlock(st, id, BlockUpdate(None, Some(t), None, None)).Ok?
    ensures var bl := st.blocks[id];
            var sh := ShiftSession(st, bl.session, ByPosition, MoveTo(bl.position, t));
            var st1 := UpdateBlock(st, id, BlockUpdate(None, Some(t), None, None)).value;
            && st1 == sh.(blocks := sh.blocks[id := bl.(position := t)])
            && SessionSize(st1, bl.session) == SessionSize(st, bl.session)
  {
    var bl := st.blocks[id];
    var s := bl.session;
    var sh := ShiftSession(st, s, ByPosition, MoveTo(bl.position, t));
    var st1 := sh.(blocks := sh.blocks[id := bl.(position := t)]);
    ShiftSessionShape(st, s, ByPosition, MoveTo(bl.position, t));
    SameShapeSessionSize(st, sh, s);
    assert BlocksOf(st1, s) == BlocksOf(sh, s);
    assert FreeOf(st1, s) == FreeOf(sh, s);
  }
}
