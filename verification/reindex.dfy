/** The reindex passes of the composers, applied to the whole state.

A session-level pass rewrites `position` on the blocks of one session and on
the exercises that the calling code treats as free there; an in-block pass
rewrites `position_in_block` on the exercises the calling code selects as
siblings. Each pass rewrites an item exactly when its loop in the source
would (`Affected`), so untouched items keep even a missing position.

The lemmas relate each pass to the domain maps of `Store`: a pass on one
domain is `ShiftAll` there and changes no other domain.
 */
module Reindex {
  import opened Outcomes
  import opened PositionIndex
  import opened Store

  /** The test a loop uses to pick the free exercises of a session:
      `block_id is None` (block composer) or `position is not None`
      (exercise composer). */
  datatype FreeTest = ByBlockId | ByPosition

  predicate OnFreeAxis(e: Exercise, s: SessionId, t: FreeTest) {
    && e.session == s
    && match t
       case ByBlockId => e.block.None?
       case ByPosition => e.position.Some?
  }

  function ShiftBlock(bl: Block, s: SessionId, op: Shift): Block {
    if bl.session == s && Affected(op, bl.position) then bl.(position := Apply(op, bl.position)) else bl
  }

  function ShiftFree(e: Exercise, s: SessionId, t: FreeTest, op: Shift): Exercise {
    if OnFreeAxis(e, s, t) && Affected(op, OrZero(e.position))
    then e.(position := Some(Apply(op, OrZero(e.position))))
    else e
  }

  /** The session-level pass over the blocks and free exercises of `s`. */
  function ShiftSession(st: State, s: SessionId, t: FreeTest, op: Shift): State {
    st.(blocks := map b | b in st.blocks :: ShiftBlock(st.blocks[b], s, op),
        exercises := map e | e in st.exercises :: ShiftFree(st.exercises[e], s, t, op))
  }

  /** Whether an in-block loop visits exercise `id`: its `block_id` equals
      `block`, it is in session `scope` when the loop lists by session, and
      it is not `skip` (the exercise being moved). */
  predicate Sibling(id: ExerciseId, e: Exercise, block: Option<BlockId>,
                    scope: Option<SessionId>, skip: Option<ExerciseId>) {
    && e.block == block
    && (scope.None? || e.session == scope.value)
    && skip != Some(id)
  }

  function ShiftMember(id: ExerciseId, e: Exercise, block: Option<BlockId>,
                       scope: Option<SessionId>, skip: Option<ExerciseId>, op: Shift): Exercise {
    if Sibling(id, e, block, scope, skip) && Affected(op, OrZero(e.positionInBlock))
    then e.(positionInBlock := Some(Apply(op, OrZero(e.positionInBlock))))
    else e
  }

  /** The in-block pass over the siblings selected by `block`, `scope`, `skip`. */
  function ShiftMembers(st: State, block: Option<BlockId>, scope: Option<SessionId>,
                        skip: Option<ExerciseId>, op: Shift): State {
    st.(exercises := map e | e in st.exercises :: ShiftMember(e, st.exercises[e], block, scope, skip, op))
  }

  /** Two states with the same records up to positions. */
  ghost predicate SameShape(st: State, st': State) {
    && st'.sessions == st.sessions
    && st'.blocks.Keys == st.blocks.Keys
    && st'.exercises.Keys == st.exercises.Keys
    && (forall b: BlockId :: b in st.blocks ==> st'.blocks[b].session == st.blocks[b].session)
    && (forall e :: e in st.exercises ==>
          && st'.exercises[e].session == st.exercises[e].session
          && st'.exercises[e].block == st.exercises[e].block)
  }

  lemma SameShapeSameMembers(st: State, st': State)
    requires SameShape(st, st')
    ensures forall s: SessionId :: SessionItems(st', s) == SessionItems(st, s)
    ensures forall s: SessionId :: CountBySession(st', s) == CountBySession(st, s)
    ensures forall s: SessionId :: CountFreeBySession(st', s) == CountFreeBySession(st, s)
    ensures forall b: BlockId :: MembersOf(st', b) == MembersOf(st, b)
    ensures Referential(st) ==> Referential(st')
  {
    forall s: SessionId
      ensures SessionItems(st', s) == SessionItems(st, s)
      ensures CountBySession(st', s) == CountBySession(st, s)
      ensures CountFreeBySession(st', s) == CountFreeBySession(st, s)
    {
      assert BlocksOf(st', s) == BlocksOf(st, s);
      assert FreeOf(st', s) == FreeOf(st, s);
    }
    forall b: BlockId
      ensures MembersOf(st', b) == MembersOf(st, b)
    {
    }
  }

  lemma SameShapeSessionSize(st: State, st': State, s: SessionId)
    requires SameShape(st, st')
    ensures SessionSize(st', s) == SessionSize(st, s)
  {
    assert BlocksOf(st', s) == BlocksOf(st, s);
    assert FreeOf(st', s) == FreeOf(st, s);
  }

  /** Every domain other than the session-level domain of `s` is as it was. */
  ghost predicate OnlySessionAxisChanged(st: State, st': State, s: SessionId) {
    && (forall s': SessionId :: s' != s ==> SessionAxis(st', s') == SessionAxis(st, s'))
    && (forall b: BlockId :: BlockAxis(st', b) == BlockAxis(st, b))
  }

  /** Every domain other than the block-level domain of `b` is as it was. */
  ghost predicate OnlyBlockAxisChanged(st: State, st': State, b: BlockId) {
    && (forall b': BlockId :: b' != b ==> BlockAxis(st', b') == BlockAxis(st, b'))
    && (forall s: SessionId :: SessionAxis(st', s) == SessionAxis(st, s))
  }

  /** A change confined to one session-level domain keeps every domain dense
      as soon as that one is. */
  lemma DenseAfterSessionChange(st: State, st': State, s: SessionId)
    requires AllDense(st)
    requires OnlySessionAxisChanged(st, st', s)
    requires Dense(SessionAxis(st', s))
    ensures AllDense(st')
  {
    forall s': SessionId
      ensures Dense(SessionAxis(st', s'))
    {
      if s' != s {
        assert SessionAxis(st', s') == SessionAxis(st, s');
      }
    }
    forall b: BlockId
      ensures Dense(BlockAxis(st', b))
    {
      assert BlockAxis(st', b) == BlockAxis(st, b);
    }
  }

  /** A change confined to one block-level domain keeps every domain dense
      as soon as that one is. */
  lemma DenseAfterBlockChange(st: State, st': State, b: BlockId)
    requires AllDense(st)
    requires OnlyBlockAxisChanged(st, st', b)
    requires Dense(BlockAxis(st', b))
    ensures AllDense(st')
  {
    forall s: SessionId
      ensures Dense(SessionAxis(st', s))
    {
      assert SessionAxis(st', s) == SessionAxis(st, s);
    }
    forall b': BlockId
      ensures Dense(BlockAxis(st', b'))
    {
      if b' != b {
        assert BlockAxis(st', b') == BlockAxis(st, b');
      }
    }
  }

  lemma OnlySessionAxisChangedTrans(st: State, st1: State, st2: State, s: SessionId)
    requires OnlySessionAxisChanged(st, st1, s)
    requires OnlySessionAxisChanged(st1, st2, s)
    ensures OnlySessionAxisChanged(st, st2, s)
  {
  }

  lemma OnlyBlockAxisChangedTrans(st: State, st1: State, st2: State, b: BlockId)
    requires OnlyBlockAxisChanged(st, st1, b)
    requires OnlyBlockAxisChanged(st1, st2, b)
    ensures OnlyBlockAxisChanged(st, st2, b)
  {
  }

  // ---------------------------------------------------------------------
  // The session-level pass
  // ---------------------------------------------------------------------

  lemma ShiftSessionShape(st: State, s: SessionId, t: FreeTest, op: Shift)
    ensures SameShape(st, ShiftSession(st, s, t, op))
    ensures ExclusiveAll(st) ==> ExclusiveAll(ShiftSession(st, s, t, op))
  {
    var st' := ShiftSession(st, s, t, op);
    assert st'.blocks.Keys == st.blocks.Keys;
    assert st'.exercises.Keys == st.exercises.Keys;
    forall e | e in st.exercises
      ensures st'.exercises[e].session == st.exercises[e].session
      ensures st'.exercises[e].block == st.exercises[e].block
      ensures Exclusive(st.exercises[e]) ==> Exclusive(st'.exercises[e])
    {
    }
  }

  /** A session-level pass keeps the members of every session-level domain. */
  lemma ShiftSessionItems(st: State, s: SessionId, t: FreeTest, op: Shift, s': SessionId)
    ensures SessionItems(ShiftSession(st, s, t, op), s') == SessionItems(st, s')
  {
    var st' := ShiftSession(st, s, t, op);
    assert BlocksOf(st', s') == BlocksOf(st, s');
    assert FreeOf(st', s') == FreeOf(st, s');
  }

  /** One member of the session-level domain of `s` after the pass. */
  lemma ShiftSessionAt(st: State, s: SessionId, t: FreeTest, op: Shift, i: Item)
    requires t == ByPosition ==> ExclusiveAll(st)
    requires OnSessionAxis(st, s, i)
    ensures PositionOf(ShiftSession(st, s, t, op), i) == Apply(op, PositionOf(st, i))
  {
    match i
    case BlockItem(b) =>
    case FreeItem(e) =>
      assert OnFreeAxis(st.exercises[e], s, t);
  }

  /** One member of another session's domain after the pass. */
  lemma ShiftSessionElsewhere(st: State, s: SessionId, t: FreeTest, op: Shift, s': SessionId, i: Item)
    requires s' != s
    requires OnSessionAxis(st, s', i)
    ensures PositionOf(ShiftSession(st, s, t, op), i) == PositionOf(st, i)
  {
  }

  /** A session-level pass is the position-index shift on the session's
      domain. */
  lemma ShiftSessionOwnAxis(st: State, s: SessionId, t: FreeTest, op: Shift)
    requires t == ByPosition ==> ExclusiveAll(st)
    ensures SessionAxis(ShiftSession(st, s, t, op), s) == ShiftAll(SessionAxis(st, s), op)
  {
    var st' := ShiftSession(st, s, t, op);
    ShiftSessionItems(st, s, t, op, s);
    var a := SessionAxis(st', s);
    var d := SessionAxis(st, s);
    assert a.Keys == d.Keys;
    forall i | i in a
      ensures a[i] == ShiftAll(d, op)[i]
    {
      ShiftSessionAt(st, s, t, op, i);
    }
  }

  /** A session-level pass leaves every other session's domain and every
      block-level domain as it was. */
  lemma ShiftSessionFrame(st: State, s: SessionId, t: FreeTest, op: Shift)
    ensures forall s': SessionId :: s' != s ==> SessionAxis(ShiftSession(st, s, t, op), s') == SessionAxis(st, s')
    ensures forall b: BlockId :: BlockAxis(ShiftSession(st, s, t, op), b) == BlockAxis(st, b)
  {
    var st' := ShiftSession(st, s, t, op);
    forall s': SessionId | s' != s
      ensures SessionAxis(st', s') == SessionAxis(st, s')
    {
      ShiftSessionItems(st, s, t, op, s');
      var a' := SessionAxis(st', s');
      assert a'.Keys == SessionAxis(st, s').Keys;
      forall i | i in a'
        ensures a'[i] == SessionAxis(st, s')[i]
      {
        ShiftSessionElsewhere(st, s, t, op, s', i);
      }
    }
    forall b: BlockId
      ensures BlockAxis(st', b) == BlockAxis(st, b)
    {
      ShiftSessionBlockAxis(st, s, t, op, b);
    }
  }

  lemma ShiftSessionBlockAxis(st: State, s: SessionId, t: FreeTest, op: Shift, b: BlockId)
    ensures BlockAxis(ShiftSession(st, s, t, op), b) == BlockAxis(st, b)
  {
    var st' := ShiftSession(st, s, t, op);
    forall e | e in st.exercises
      ensures st'.exercises[e].block == st.exercises[e].block
      ensures st'.exercises[e].positionInBlock == st.exercises[e].positionInBlock
    {
    }
    assert MembersOf(st', b) == MembersOf(st, b);
  }

  // ---------------------------------------------------------------------
  // The in-block pass
  // ---------------------------------------------------------------------

  lemma ShiftMembersShape(st: State, block: Option<BlockId>, scope: Option<SessionId>,
                          skip: Option<ExerciseId>, op: Shift)
    ensures SameShape(st, ShiftMembers(st, block, scope, skip, op))
    ensures ExclusiveAll(st) ==> ExclusiveAll(ShiftMembers(st, block, scope, skip, op))
  {
    var st' := ShiftMembers(st, block, scope, skip, op);
    assert st'.exercises.Keys == st.exercises.Keys;
    forall e | e in st.exercises
      ensures st'.exercises[e].session == st.exercises[e].session
      ensures st'.exercises[e].block == st.exercises[e].block
      ensures Exclusive(st.exercises[e]) ==> Exclusive(st'.exercises[e])
    {
    }
  }

  /** An in-block pass keeps the members of every block-level domain. */
  lemma ShiftMembersMembers(st: State, block: Option<BlockId>, scope: Option<SessionId>,
                            skip: Option<ExerciseId>, op: Shift, b: BlockId)
    ensures MembersOf(ShiftMembers(st, block, scope, skip, op), b) == MembersOf(st, b)
  {
  }

  /** One member of the block-level domain of `b` after the pass. */
  lemma ShiftMembersAt(st: State, b: BlockId, scope: Option<SessionId>,
                       skip: Option<ExerciseId>, op: Shift, e: ExerciseId)
    requires e in MembersOf(st, b)
    requires scope.None? || st.exercises[e].session == scope.value
    requires skip == Some(e) ==> !Affected(op, OrZero(st.exercises[e].positionInBlock))
    ensures OrZero(ShiftMembers(st, Some(b), scope, skip, op).exercises[e].positionInBlock)
              == Apply(op, OrZero(st.exercises[e].positionInBlock))
  {
  }

  /** An in-block pass over the siblings of block `b` is the position-index
      shift on the block's domain, provided it visits every member (its
      session filter is the members' session, and the skipped exercise is
      not rewritten anyway). */
  lemma ShiftMembersOwnAxis(st: State, b: BlockId, scope: Option<SessionId>,
                            skip: Option<ExerciseId>, op: Shift)
    requires forall e :: e in MembersOf(st, b) ==> scope.None? || st.exercises[e].session == scope.value
    requires skip.Some? && skip.value in MembersOf(st, b) ==>
               !Affected(op, OrZero(st.exercises[skip.value].positionInBlock))
    ensures BlockAxis(ShiftMembers(st, Some(b), scope, skip, op), b) == ShiftAll(BlockAxis(st, b), op)
  {
    var st' := ShiftMembers(st, Some(b), scope, skip, op);
    ShiftMembersMembers(st, Some(b), scope, skip, op, b);
    var a := BlockAxis(st', b);
    var d := BlockAxis(st, b);
    assert a.Keys == d.Keys;
    forall e | e in a
      ensures a[e] == ShiftAll(d, op)[e]
    {
      ShiftMembersAt(st, b, scope, skip, op, e);
    }
  }

  /** One exercise outside the pass keeps its `position_in_block`. */
  lemma ShiftMembersElsewhere(st: State, block: Option<BlockId>, scope: Option<SessionId>,
                              skip: Option<ExerciseId>, op: Shift, e: ExerciseId)
    requires e in st.exercises && st.exercises[e].block != block
    ensures ShiftMembers(st, block, scope, skip, op).exercises[e] == st.exercises[e]
  {
  }

  /** An in-block pass leaves the other block-level domains and every
      session-level domain as they were. */
  lemma ShiftMembersFrame(st: State, block: Option<BlockId>, scope: Option<SessionId>,
                          skip: Option<ExerciseId>, op: Shift)
    ensures forall b': BlockId :: Some(b') != block ==> BlockAxis(ShiftMembers(st, block, scope, skip, op), b') == BlockAxis(st, b')
    ensures forall s: SessionId :: SessionAxis(ShiftMembers(st, block, scope, skip, op), s) == SessionAxis(st, s)
  {
    var st' := ShiftMembers(st, block, scope, skip, op);
    forall b': BlockId | Some(b') != block
      ensures BlockAxis(st', b') == BlockAxis(st, b')
    {
      ShiftMembersMembers(st, block, scope, skip, op, b');
      var a := BlockAxis(st', b');
      assert a.Keys == BlockAxis(st, b').Keys;
      forall e | e in a
        ensures a[e] == BlockAxis(st, b')[e]
      {
        ShiftMembersElsewhere(st, block, scope, skip, op, e);
      }
    }
    forall s: SessionId
      ensures SessionAxis(st', s) == SessionAxis(st, s)
    {
      ShiftMembersSessionAxis(st, block, scope, skip, op, s);
    }
  }

  lemma ShiftMembersSessionAxis(st: State, block: Option<BlockId>, scope: Option<SessionId>,
                                skip: Option<ExerciseId>, op: Shift, s: SessionId)
    ensures SessionAxis(ShiftMembers(st, block, scope, skip, op), s) == SessionAxis(st, s)
  {
    var st' := ShiftMembers(st, block, scope, skip, op);
    assert FreeOf(st', s) == FreeOf(st, s);
    assert SessionItems(st', s) == SessionItems(st, s);
    var a := SessionAxis(st', s);
    forall i | i in a
      ensures a[i] == SessionAxis(st, s)[i]
    {
    }
  }

  /** Everything a session-level pass does, in one statement. */
  lemma ShiftSessionEffect(st: State, s: SessionId, t: FreeTest, op: Shift)
    requires ExclusiveAll(st)
    ensures var st' := ShiftSession(st, s, t, op);
            && SameShape(st, st')
            && ExclusiveAll(st')
            && (Referential(st) ==> Referential(st'))
            && SessionAxis(st', s) == ShiftAll(SessionAxis(st, s), op)
            && OnlySessionAxisChanged(st, st', s)
  {
    var st' := ShiftSession(st, s, t, op);
    ShiftSessionShape(st, s, t, op);
    ShiftSessionOwnAxis(st, s, t, op);
    ShiftSessionFrame(st, s, t, op);
    SameShapeSameMembers(st, st');
  }

  /** Everything an in-block pass over block `b` does, in one statement. */
  lemma ShiftMembersEffect(st: State, b: BlockId, scope: Option<SessionId>,
                           skip: Option<ExerciseId>, op: Shift)
    requires forall e :: e in MembersOf(st, b) ==> scope.None? || st.exercises[e].session == scope.value
    requires skip.Some? && skip.value in MembersOf(st, b) ==>
               !Affected(op, OrZero(st.exercises[skip.value].positionInBlock))
    ensures var st' := ShiftMembers(st, Some(b), scope, skip, op);
            && SameShape(st, st')
            && (ExclusiveAll(st) ==> ExclusiveAll(st'))
            && (Referential(st) ==> Referential(st'))
            && BlockAxis(st', b) == ShiftAll(BlockAxis(st, b), op)
            && OnlyBlockAxisChanged(st, st', b)
  {
    var st' := ShiftMembers(st, Some(b), scope, skip, op);
    ShiftMembersShape(st, Some(b), scope, skip, op);
    ShiftMembersOwnAxis(st, b, scope, skip, op);
    ShiftMembersFrame(st, Some(b), scope, skip, op);
    SameShapeSameMembers(st, st');
  }

  // ---------------------------------------------------------------------
  // Storing and deleting one record
  // ---------------------------------------------------------------------

  /** Storing block `id` adds it to (or repositions it in) its session's
      domain and touches no other domain. */
  lemma PutBlockEffect(st: State, id: BlockId, bl: Block)
    requires id in st.blocks ==> st.blocks[id].session == bl.session
    ensures SessionAxis(st.(blocks := st.blocks[id := bl]), bl.session)
              == SessionAxis(st, bl.session)[BlockItem(id) := bl.position]
    ensures forall s: SessionId :: s != bl.session ==>
              SessionAxis(st.(blocks := st.blocks[id := bl]), s) == SessionAxis(st, s)
    ensures forall b: BlockId :: BlockAxis(st.(blocks := st.blocks[id := bl]), b) == BlockAxis(st, b)
  {
    PutBlockOwnAxis(st, id, bl);
    forall s: SessionId | s != bl.session
      ensures SessionAxis(st.(blocks := st.blocks[id := bl]), s) == SessionAxis(st, s)
    {
      PutBlockOtherAxis(st, id, bl, s);
    }
  }

  lemma PutBlockOwnAxis(st: State, id: BlockId, bl: Block)
    requires id in st.blocks ==> st.blocks[id].session == bl.session
    ensures SessionAxis(st.(blocks := st.blocks[id := bl]), bl.session)
              == SessionAxis(st, bl.session)[BlockItem(id) := bl.position]
  {
    var st' := st.(blocks := st.blocks[id := bl]);
    var s := bl.session;
    assert BlocksOf(st', s) == BlocksOf(st, s) + {id};
    assert SessionItems(st', s) == SessionItems(st, s) + {BlockItem(id)};
    var a := SessionAxis(st', s);
    var d := SessionAxis(st, s)[BlockItem(id) := bl.position];
    assert a.Keys == d.Keys;
    forall i | i in a
      ensures a[i] == d[i]
    {
    }
  }

  lemma PutBlockOtherAxis(st: State, id: BlockId, bl: Block, s: SessionId)
    requires id in st.blocks ==> st.blocks[id].session == bl.session
    requires s != bl.session
    ensures SessionAxis(st.(blocks := st.blocks[id := bl]), s) == SessionAxis(st, s)
  {
    var st' := st.(blocks := st.blocks[id := bl]);
    assert BlocksOf(st', s) == BlocksOf(st, s);
    assert SessionItems(st', s) == SessionItems(st, s);
    var a := SessionAxis(st', s);
    forall i | i in a
      ensures a[i] == SessionAxis(st, s)[i]
    {
    }
  }

  /** Deleting block `id` drops it from every session-level domain and
      touches no block-level domain (no cascade). */
  lemma DropBlockEffect(st: State, id: BlockId)
    ensures forall s: SessionId :: SessionAxis(st.(blocks := st.blocks - {id}), s) == SessionAxis(st, s) - {BlockItem(id)}
    ensures forall b: BlockId :: BlockAxis(st.(blocks := st.blocks - {id}), b) == BlockAxis(st, b)
  {
    var st' := st.(blocks := st.blocks - {id});
    forall s: SessionId
      ensures SessionAxis(st', s) == SessionAxis(st, s) - {BlockItem(id)}
    {
      assert SessionItems(st', s) == SessionItems(st, s) - {BlockItem(id)};
    }
  }

  /** Storing exercise `id` (new, or keeping its session and block) puts it
      in the one domain it belongs to and touches no other. */
  lemma PutExerciseEffect(st: State, id: ExerciseId, e: Exercise)
    requires id in st.exercises ==>
               st.exercises[id].session == e.session && st.exercises[id].block == e.block
    ensures forall s: SessionId :: SessionAxis(st.(exercises := st.exercises[id := e]), s)
              == if e.block.None? && e.session == s
                 then SessionAxis(st, s)[FreeItem(id) := OrZero(e.position)]
                 else SessionAxis(st, s)
    ensures forall b: BlockId :: BlockAxis(st.(exercises := st.exercises[id := e]), b)
              == if e.block == Some(b)
                 then BlockAxis(st, b)[id := OrZero(e.positionInBlock)]
                 else BlockAxis(st, b)
  {
    forall s: SessionId
      ensures SessionAxis(st.(exercises := st.exercises[id := e]), s)
                == if e.block.None? && e.session == s
                   then SessionAxis(st, s)[FreeItem(id) := OrZero(e.position)]
                   else SessionAxis(st, s)
    {
      PutExerciseSessionAxis(st, id, e, s);
    }
    forall b: BlockId
      ensures BlockAxis(st.(exercises := st.exercises[id := e]), b)
                == if e.block == Some(b)
                   then BlockAxis(st, b)[id := OrZero(e.positionInBlock)]
                   else BlockAxis(st, b)
    {
      PutExerciseBlockAxis(st, id, e, b);
    }
  }

  lemma PutExerciseSessionAxis(st: State, id: ExerciseId, e: Exercise, s: SessionId)
    requires id in st.exercises ==>
               st.exercises[id].session == e.session && st.exercises[id].block == e.block
    ensures SessionAxis(st.(exercises := st.exercises[id := e]), s)
              == if e.block.None? && e.session == s
                 then SessionAxis(st, s)[FreeItem(id) := OrZero(e.position)]
                 else SessionAxis(st, s)
  {
    if e.block.None? && e.session == s {
      PutFreeExerciseOwnAxis(st, id, e);
    } else {
      PutExerciseOffAxis(st, id, e, s);
    }
  }

  lemma PutFreeExerciseOwnAxis(st: State, id: ExerciseId, e: Exercise)
    requires id in st.exercises ==> st.exercises[id].session == e.session && st.exercises[id].block == e.block
    requires e.block.None?
    ensures SessionAxis(st.(exercises := st.exercises[id := e]), e.session)
              == SessionAxis(st, e.session)[FreeItem(id) := OrZero(e.position)]
  {
    var st' := st.(exercises := st.exercises[id := e]);
    var s := e.session;
    assert FreeOf(st', s) == FreeOf(st, s) + {id};
    assert SessionItems(st', s) == SessionItems(st, s) + {FreeItem(id)};
    var a := SessionAxis(st', s);
    var d := SessionAxis(st, s)[FreeItem(id) := OrZero(e.position)];
    assert a.Keys == d.Keys;
    forall i | i in a
      ensures a[i] == d[i]
    {
    }
  }

  lemma PutExerciseOffAxis(st: State, id: ExerciseId, e: Exercise, s: SessionId)
    requires id in st.exercises ==> st.exercises[id].session == e.session && st.exercises[id].block == e.block
    requires !(e.block.None? && e.session == s)
    ensures SessionAxis(st.(exercises := st.exercises[id := e]), s) == SessionAxis(st, s)
  {
    var st' := st.(exercises := st.exercises[id := e]);
    assert FreeOf(st', s) == FreeOf(st, s);
    assert SessionItems(st', s) == SessionItems(st, s);
    var a := SessionAxis(st', s);
    forall i | i in a
      ensures a[i] == SessionAxis(st, s)[i]
    {
    }
  }

  lemma PutExerciseBlockAxis(st: State, id: ExerciseId, e: Exercise, b: BlockId)
    requires id in st.exercises ==>
               st.exercises[id].session == e.session && st.exercises[id].block == e.block
    ensures BlockAxis(st.(exercises := st.exercises[id := e]), b)
              == if e.block == Some(b)
                 then BlockAxis(st, b)[id := OrZero(e.positionInBlock)]
                 else BlockAxis(st, b)
  {
    var st' := st.(exercises := st.exercises[id := e]);
    if e.block == Some(b) {
      assert MembersOf(st', b) == MembersOf(st, b) + {id};
    } else {
      assert MembersOf(st', b) == MembersOf(st, b);
    }
  }

  /** Rewriting exercise `id` of a block, keeping its session and block,
      touches that block's domain only. */
  lemma PutMemberEffect(st: State, id: ExerciseId, e: Exercise)
    requires id in st.exercises && st.exercises[id].session == e.session && st.exercises[id].block == e.block
    requires e.block.Some?
    ensures BlockAxis(st.(exercises := st.exercises[id := e]), e.block.value)
              == BlockAxis(st, e.block.value)[id := OrZero(e.positionInBlock)]
    ensures OnlyBlockAxisChanged(st, st.(exercises := st.exercises[id := e]), e.block.value)
  {
    var st' := st.(exercises := st.exercises[id := e]);
    PutExerciseBlockAxis(st, id, e, e.block.value);
    forall b': BlockId | b' != e.block.value
      ensures BlockAxis(st', b') == BlockAxis(st, b')
    {
      PutExerciseBlockAxis(st, id, e, b');
    }
    forall s: SessionId
      ensures SessionAxis(st', s) == SessionAxis(st, s)
    {
      PutExerciseOffAxis(st, id, e, s);
    }
  }

  /** Storing a free exercise (new, or keeping its session) touches its
      session's domain only. */
  lemma PutFreeMemberEffect(st: State, id: ExerciseId, e: Exercise)
    requires id in st.exercises ==> st.exercises[id].session == e.session && st.exercises[id].block == e.block
    requires e.block.None?
    ensures SessionAxis(st.(exercises := st.exercises[id := e]), e.session)
              == SessionAxis(st, e.session)[FreeItem(id) := OrZero(e.position)]
    ensures OnlySessionAxisChanged(st, st.(exercises := st.exercises[id := e]), e.session)
  {
    var st' := st.(exercises := st.exercises[id := e]);
    PutFreeExerciseOwnAxis(st, id, e);
    forall s': SessionId | s' != e.session
      ensures SessionAxis(st', s') == SessionAxis(st, s')
    {
      PutExerciseOffAxis(st, id, e, s');
    }
    forall b: BlockId
      ensures BlockAxis(st', b) == BlockAxis(st, b)
    {
      PutExerciseBlockAxis(st, id, e, b);
    }
  }

  /** Rewriting an exercise without changing its session, block or positions
      leaves every domain as it was. */
  lemma PutSamePositions(st: State, id: ExerciseId, e: Exercise)
    requires id in st.exercises
    requires var was := st.exercises[id];
             && was.session == e.session && was.block == e.block
             && was.position == e.position && was.positionInBlock == e.positionInBlock
    ensures forall s: SessionId :: SessionAxis(st.(exercises := st.exercises[id := e]), s) == SessionAxis(st, s)
    ensures forall b: BlockId :: BlockAxis(st.(exercises := st.exercises[id := e]), b) == BlockAxis(st, b)
  {
    var st' := st.(exercises := st.exercises[id := e]);
    forall s: SessionId
      ensures SessionAxis(st', s) == SessionAxis(st, s)
    {
      if e.block.None? && e.session == s {
        PutFreeExerciseOwnAxis(st, id, e);
        assert OnSessionAxis(st, s, FreeItem(id));
        assert SessionAxis(st, s)[FreeItem(id)] == OrZero(e.position);
      } else {
        PutExerciseOffAxis(st, id, e, s);
      }
    }
    forall b: BlockId
      ensures BlockAxis(st', b) == BlockAxis(st, b)
    {
      PutExerciseBlockAxis(st, id, e, b);
      if e.block == Some(b) {
        assert id in MembersOf(st, b);
        assert BlockAxis(st, b)[id] == OrZero(e.positionInBlock);
      }
    }
  }

  lemma PutExclusive(st: State, id: ExerciseId, e: Exercise)
    requires ExclusiveAll(st) && Exclusive(e)
    ensures ExclusiveAll(st.(exercises := st.exercises[id := e]))
  {
  }

  /** Deleting exercise `id` drops it from whichever domain held it. */
  lemma DropExerciseEffect(st: State, id: ExerciseId)
    ensures forall s: SessionId :: SessionAxis(st.(exercises := st.exercises - {id}), s) == SessionAxis(st, s) - {FreeItem(id)}
    ensures forall b: BlockId :: BlockAxis(st.(exercises := st.exercises - {id}), b) == BlockAxis(st, b) - {id}
  {
    var st' := st.(exercises := st.exercises - {id});
    forall s: SessionId
      ensures SessionAxis(st', s) == SessionAxis(st, s) - {FreeItem(id)}
    {
      assert SessionItems(st', s) == SessionItems(st, s) - {FreeItem(id)};
    }
    forall b: BlockId
      ensures BlockAxis(st', b) == BlockAxis(st, b) - {id}
    {
      assert MembersOf(st', b) == MembersOf(st, b) - {id};
    }
  }
}
