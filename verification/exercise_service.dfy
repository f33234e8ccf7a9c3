/** The exercise composer (the keyword-argument version): create, update and
delete an exercise. An exercise with a `block_id` lives in the block-level
domain of its block; one without lives in the session-level domain of its
session, next to the blocks.

This version checks no ownership and does not check that the session exists.
Its in-block move is not guarded by `block_id is not None`: for a free
exercise it counts the members of block `0`, which has none, so any change
of `position_in_block` is rejected as out of range. The `blockGuard` flag
switches on the guard the ownership-checked version adds; everything else is
shared by the two versions.
 */
module ExerciseService {
  import opened Outcomes
  import opened PositionIndex
  import opened Store
  import opened Reindex

  /** The fields `create_exercise` accepts. */
  datatype ExerciseCreate = ExerciseCreate(
    session: Option<SessionId>,
    block: Option<BlockId>,
    measures: Measures,
    position: Option<int>,
    positionInBlock: Option<int>)

  /** The fields `update_exercise` accepts; `None` leaves a field as it is. */
  datatype ExerciseUpdate = ExerciseUpdate(
    kind: Option<Opaque>,
    weight: Option<Opaque>,
    repetitions: Option<int>,
    duration: Option<Opaque>,
    distance: Option<Opaque>,
    notes: Option<string>,
    position: Option<int>,
    positionInBlock: Option<int>)

  /** The guards `create_exercise` runs before computing any position: a
      session is named, a named block lies in it, and an exercise in a block
      does not also ask for a session-level position. */
  predicate CreateGuardsPass(st: State, req: ExerciseCreate) {
    && req.session.Some?
    && (req.block.Some? ==> ValidateBlockSession(st, req.block.value, req.session.value))
    && !(req.block.Some? && req.position.Some?)
  }

  /** `create_exercise`: in a block, insert into the block's domain (append
      by default); otherwise insert into the session's domain. The database
      hands out the key `newId`. The record keeps the caller's
      `position_in_block` even for a free exercise. */
  function CreateExercise(st: State, req: ExerciseCreate, newId: ExerciseId): (r: Result<State>)
    ensures r == Err(MissingSession) <==> req.session.None?
    ensures r == Err(BlockSessionMismatch) <==>
              req.session.Some? && req.block.Some? && !ValidateBlockSession(st, req.block.value, req.session.value)
    ensures r == Err(GlobalPositionInBlock) <==>
              && req.session.Some? && req.block.Some? && ValidateBlockSession(st, req.block.value, req.session.value)
              && req.position.Some?
    ensures r == Err(InvalidPositionInBlock) <==>
              && CreateGuardsPass(st, req) && req.block.Some? && req.positionInBlock.Some?
              && !(0 <= req.positionInBlock.value <= CountByBlock(st, req.block.value))
    ensures r == Err(InvalidExercisePosition) <==>
              && CreateGuardsPass(st, req) && req.block.None? && req.position.Some?
              && !(0 <= req.position.value <= SessionSize(st, req.session.value))
    ensures r.Ok? ==>
              && r.value.exercises.Keys == st.exercises.Keys + {newId}
              && r.value.blocks.Keys == st.blocks.Keys
              && r.value.sessions == st.sessions
    ensures r.Ok? ==>
              var e := r.value.exercises[newId];
              && e.session == req.session.value && e.block == req.block && e.measures == req.measures
              && (req.block.Some? ==>
                    && e.position.None?
                    && e.positionInBlock == Some(req.positionInBlock.GetOr(CountByBlock(st, req.block.value))))
              && (req.block.None? ==>
                    && e.position == Some(req.position.GetOr(SessionSize(st, req.session.value)))
                    && e.positionInBlock == req.positionInBlock)
  {
    if req.session.None? then Err(MissingSession)
    else
      var s := req.session.value;
      if req.block.Some? && !ValidateBlockSession(st, req.block.value, s) then Err(BlockSessionMismatch)
      else if req.block.Some? && req.position.Some? then Err(GlobalPositionInBlock)
      else if req.block.Some? then
        var b := req.block.value;
        var total := CountByBlock(st, b);
        if req.positionInBlock.None? then
          Ok(st.(exercises := st.exercises[newId := Exercise(s, Some(b), req.measures, None, Some(total))]))
        else if req.positionInBlock.value < 0 || req.positionInBlock.value > total then Err(InvalidPositionInBlock)
        else
          var k := req.positionInBlock.value;
          var st1 := ShiftMembers(st, Some(b), None, None, InsertAt(k));
          Ok(st1.(exercises := st1.exercises[newId := Exercise(s, Some(b), req.measures, None, Some(k))]))
      else
        var total := SessionSize(st, s);
        if req.position.None? then
          Ok(st.(exercises := st.exercises[newId := Exercise(s, None, req.measures, Some(total), req.positionInBlock)]))
        else if req.position.value < 0 || req.position.value > total then Err(InvalidExercisePosition)
        else
          var k := req.position.value;
          var st1 := ShiftSession(st, s, ByPosition, InsertAt(k));
          Ok(st1.(exercises := st1.exercises[newId := Exercise(s, None, req.measures, Some(k), req.positionInBlock)]))
  }

  /** The measured fields after an update: each one is overwritten only when
      supplied. */
  function MergeMeasures(m: Measures, upd: ExerciseUpdate): (r: Measures)
    ensures upd.kind.Some? ==> r.kind == upd.kind.value
    ensures upd.kind.None? ==> r.kind == m.kind
    ensures r.weight == (if upd.weight.Some? then upd.weight else m.weight)
    ensures r.repetitions == (if upd.repetitions.Some? then upd.repetitions else m.repetitions)
    ensures r.duration == (if upd.duration.Some? then upd.duration else m.duration)
    ensures r.distance == (if upd.distance.Some? then upd.distance else m.distance)
    ensures r.notes == (if upd.notes.Some? then upd.notes else m.notes)
  {
    Measures(upd.kind.GetOr(m.kind), upd.weight.Or(m.weight), upd.repetitions.Or(m.repetitions),
             upd.duration.Or(m.duration), upd.distance.Or(m.distance), upd.notes.Or(m.notes))
  }

  /** Whether the update runs the in-block move: a `position_in_block`
      different from the current one (a missing one reads as 0), and, in the
      guarded version, an exercise that is in a block. */
  predicate BlockMoveRequested(ex: Exercise, upd: ExerciseUpdate, blockGuard: bool) {
    && upd.positionInBlock.Some?
    && upd.positionInBlock.value != OrZero(ex.positionInBlock)
    && (blockGuard ==> ex.block.Some?)
  }

  /** Whether the update runs the session-level move. */
  predicate SessionMoveRequested(ex: Exercise, upd: ExerciseUpdate) {
    upd.position.Some? && upd.position.value != OrZero(ex.position)
  }

  /** The in-block move of exercise `id` to `target`: the target must lie in
      `[0, count_by_block - 1]`, the other exercises of the session that share
      its `block_id` follow the move rule, and the exercise takes `target`. */
  function MoveWithinBlock(st: State, id: ExerciseId, target: int): (r: Result<State>)
    requires id in st.exercises
    ensures r.Err? <==> !(0 <= target <= CountByBlock(st, st.exercises[id].block.GetOr(0)) - 1)
    ensures r.Err? ==> r.error == InvalidPositionInBlock
    ensures r.Ok? ==> && r.value.exercises.Keys == st.exercises.Keys
                      && r.value.exercises[id] == st.exercises[id].(positionInBlock := Some(target))
                      && SameShape(st, r.value)
  {
    var ex := st.exercises[id];
    var from := OrZero(ex.positionInBlock);
    if target < 0 || target > CountByBlock(st, ex.block.GetOr(0)) - 1 then Err(InvalidPositionInBlock)
    else
      var st1 := ShiftMembers(st, ex.block, Some(ex.session), Some(id), MoveTo(from, target));
      ShiftMembersShape(st, ex.block, Some(ex.session), Some(id), MoveTo(from, target));
      Ok(st1.(exercises := st1.exercises[id := ex.(positionInBlock := Some(target))]))
  }

  /** The session-level move of exercise `id` to `target`: the target must
      lie in `[0, blocks + free - 1]`, the blocks and the exercises with a
      position follow the move rule, and the exercise takes `target`. */
  function MoveWithinSession(st: State, id: ExerciseId, target: int): (r: Result<State>)
    requires id in st.exercises
    ensures r.Err? <==> !(0 <= target <= SessionSize(st, st.exercises[id].session) - 1)
    ensures r.Err? ==> r.error == InvalidExercisePosition
    ensures r.Ok? ==> && r.value.exercises.Keys == st.exercises.Keys
                      && r.value.exercises[id] == st.exercises[id].(position := Some(target))
                      && SameShape(st, r.value)
  {
    var ex := st.exercises[id];
    var s := ex.session;
    var from := OrZero(ex.position);
    if target < 0 || target > SessionSize(st, s) - 1 then Err(InvalidExercisePosition)
    else
      var st1 := ShiftSession(st, s, ByPosition, MoveTo(from, target));
      ShiftSessionShape(st, s, ByPosition, MoveTo(from, target));
      Ok(st1.(exercises := st1.exercises[id := ex.(position := Some(target))]))
  }

  /** `update_exercise`: refuse a session-level position for an exercise in a
      block, then run the in-block move and the session-level move when
      requested, then overwrite the supplied measures. `blockGuard` selects
      the version that runs the in-block move only for an exercise in a
      block. */
  function UpdateExercise(st: State, id: ExerciseId, upd: ExerciseUpdate, blockGuard: bool): (r: Result<State>)
    ensures r == Err(ExerciseNotFound) <==> id !in st.exercises
    ensures r == Err(CannotLeaveBlock) <==>
              id in st.exercises && st.exercises[id].block.Some? && upd.position.Some?
    ensures r == Err(InvalidPositionInBlock) <==>
              && id in st.exercises
              && var ex := st.exercises[id];
              && !(ex.block.Some? && upd.position.Some?)
              && BlockMoveRequested(ex, upd, blockGuard)
              && !(0 <= upd.positionInBlock.value <= CountByBlock(st, ex.block.GetOr(0)) - 1)
    ensures r == Err(InvalidExercisePosition) <==>
              && id in st.exercises
              && var ex := st.exercises[id];
              && !(ex.block.Some? && upd.position.Some?)
              && (BlockMoveRequested(ex, upd, blockGuard) ==>
                    0 <= upd.positionInBlock.value <= CountByBlock(st, ex.block.GetOr(0)) - 1)
              && SessionMoveRequested(ex, upd)
              && !(0 <= upd.position.value <= SessionSize(st, ex.session) - 1)
    ensures r.Ok? ==>
              && r.value.exercises.Keys == st.exercises.Keys
              && r.value.blocks.Keys == st.blocks.Keys
              && r.value.sessions == st.sessions
    ensures r.Ok? ==>
              var ex := st.exercises[id];
              var e := r.value.exercises[id];
              && e.session == ex.session && e.block == ex.block
              && e.measures == MergeMeasures(ex.measures, upd)
              && e.positionInBlock == (if BlockMoveRequested(ex, upd, blockGuard) then upd.positionInBlock else ex.positionInBlock)
              && e.position == (if SessionMoveRequested(ex, upd) then upd.position else ex.position)
  {
    if id !in st.exercises then Err(ExerciseNotFound)
    else
      var ex := st.exercises[id];
      if ex.block.Some? && upd.position.Some? then Err(CannotLeaveBlock)
      else
        var t := upd.positionInBlock.GetOr(0);
        if BlockMoveRequested(ex, upd, blockGuard) && !(0 <= t <= CountByBlock(st, ex.block.GetOr(0)) - 1) then
          Err(InvalidPositionInBlock)
        else
          var st1 := if BlockMoveRequested(ex, upd, blockGuard) then MoveWithinBlock(st, id, t).value else st;
          MoveWithinBlockSize(st, id, t);
          MoveInSessionThenMerge(st1, id, upd)
  }

  /** The second half of `update_exercise`: the session-level move when
      requested, then the measures. */
  function MoveInSessionThenMerge(st: State, id: ExerciseId, upd: ExerciseUpdate): (r: Result<State>)
    requires id in st.exercises
    ensures r.Err? <==> SessionMoveRequested(st.exercises[id], upd)
                        && !(0 <= upd.position.value <= SessionSize(st, st.exercises[id].session) - 1)
    ensures r.Err? ==> r.error == InvalidExercisePosition
    ensures r.Ok? ==>
              && r.value.exercises.Keys == st.exercises.Keys
              && r.value.blocks.Keys == st.blocks.Keys
              && r.value.sessions == st.sessions
    ensures r.Ok? ==>
              var ex := st.exercises[id];
              var e := r.value.exercises[id];
              && e.session == ex.session && e.block == ex.block
              && e.measures == MergeMeasures(ex.measures, upd)
              && e.positionInBlock == ex.positionInBlock
              && e.position == (if SessionMoveRequested(ex, upd) then upd.position else ex.position)
  {
    var ex := st.exercises[id];
    if SessionMoveRequested(ex, upd) && !(0 <= upd.position.value <= SessionSize(st, ex.session) - 1) then
      Err(InvalidExercisePosition)
    else
      var st1 := if SessionMoveRequested(ex, upd) then MoveWithinSession(st, id, upd.position.value).value else st;
      var e := st1.exercises[id];
      Ok(st1.(exercises := st1.exercises[id := e.(measures := MergeMeasures(e.measures, upd))]))
  }

  lemma MoveWithinBlockSize(st: State, id: ExerciseId, t: int)
    requires id in st.exercises
    ensures MoveWithinBlock(st, id, t).Ok? ==>
              SessionSize(MoveWithinBlock(st, id, t).value, st.exercises[id].session) == SessionSize(st, st.exercises[id].session)
  {
    if MoveWithinBlock(st, id, t).Ok? {
      SameShapeSessionSize(st, MoveWithinBlock(st, id, t).value, st.exercises[id].session);
    }
  }

  /** `delete_exercise`: drop the exercise, then close the gap in the one
      domain it belonged to. */
  function DeleteExercise(st: State, id: ExerciseId): (r: Result<State>)
    ensures r.Err? <==> id !in st.exercises
    ensures r.Err? ==> r.error == ExerciseNotFound
    ensures r.Ok? ==> && r.value.exercises.Keys == st.exercises.Keys - {id}
                      && r.value.blocks.Keys == st.blocks.Keys
                      && r.value.sessions == st.sessions
  {
    if id !in st.exercises then Err(ExerciseNotFound)
    else
      var ex := st.exercises[id];
      var st1 := st.(exercises := st.exercises - {id});
      if ex.block.Some? then
        Ok(ShiftMembers(st1, ex.block, Some(ex.session), Some(id), RemoveAt(OrZero(ex.positionInBlock))))
      else
        Ok(ShiftSession(st1, ex.session, ByPosition, RemoveAt(OrZero(ex.position))))
  }

  // ---------------------------------------------------------------------
  // Effect on the ordering domains
  // ---------------------------------------------------------------------

  /** Storing an exercise keeps the block references intact when it is new
      and names a block of its own session (or none), or when it keeps the
      session and block it had. */
  lemma PutExerciseReferential(st: State, id: ExerciseId, e: Exercise)
    requires Referential(st)
    requires e.block != Some(0)
    requires id in st.exercises ==> st.exercises[id].session == e.session && st.exercises[id].block == e.block
    requires id !in st.exercises && e.block.Some? ==>
               e.block.value in st.blocks && st.blocks[e.block.value].session == e.session
    ensures Referential(st.(exercises := st.exercises[id := e]))
  {
    var st' := st.(exercises := st.exercises[id := e]);
    forall e1, e2 | e1 in st'.exercises && e2 in st'.exercises && st'.exercises[e1].block.Some?
                    && st'.exercises[e1].block == st'.exercises[e2].block
      ensures st'.exercises[e1].session == st'.exercises[e2].session
    {
      if e1 == id && id !in st.exercises && e2 != id {
        assert st.exercises[e2].block == e.block;
      } else if e2 == id && id !in st.exercises && e1 != id {
        assert st.exercises[e1].block == e.block;
      }
    }
  }

  /** Storing a new free exercise at `k` in a state whose session domain
      has just been shifted for it completes the insertion. */
  lemma PutNewFreeExercise(st: State, st1: State, newId: ExerciseId, e: Exercise)
    requires ExclusiveAll(st1) && Referential(st1)
    requires newId !in st1.exercises
    requires e.block.None? && e.position.Some?
    requires SessionAxis(st1, e.session) == ShiftAll(SessionAxis(st, e.session), InsertAt(e.position.value))
    requires OnlySessionAxisChanged(st, st1, e.session)
    ensures var st2 := st1.(exercises := st1.exercises[newId := e]);
            && ExclusiveAll(st2)
            && Referential(st2)
            && SessionAxis(st2, e.session) == Insert(SessionAxis(st, e.session), FreeItem(newId), e.position.value)
            && OnlySessionAxisChanged(st, st2, e.session)
  {
    PutExerciseEffect(st1, newId, e);
    PutExerciseReferential(st1, newId, e);
  }

  /** Storing a new exercise of block `b` at `k` in a state whose block
      domain has just been shifted for it completes the insertion. */
  lemma PutNewBlockExercise(st: State, st1: State, newId: ExerciseId, e: Exercise)
    requires ExclusiveAll(st1) && Referential(st1)
    requires newId !in st1.exercises
    requires e.block.Some? && e.block.value in st1.blocks && st1.blocks[e.block.value].session == e.session
    requires e.position.None? && e.positionInBlock.Some?
    requires BlockAxis(st1, e.block.value) == ShiftAll(BlockAxis(st, e.block.value), InsertAt(e.positionInBlock.value))
    requires OnlyBlockAxisChanged(st, st1, e.block.value)
    ensures var st2 := st1.(exercises := st1.exercises[newId := e]);
            && ExclusiveAll(st2)
            && Referential(st2)
            && BlockAxis(st2, e.block.value) == Insert(BlockAxis(st, e.block.value), newId, e.positionInBlock.value)
            && OnlyBlockAxisChanged(st, st2, e.block.value)
  {
    PutExerciseEffect(st1, newId, e);
    PutExerciseReferential(st1, newId, e);
  }

  /** An in-block create inserts the new exercise into its block's domain
      and changes no other domain. */
  lemma CreateInBlockEffect(st: State, req: ExerciseCreate, newId: ExerciseId)
    requires ExclusiveAll(st) && Referential(st)
    requires newId !in st.exercises
    requires req.block.Some?
    requires CreateExercise(st, req, newId).Ok?
    requires Dense(BlockAxis(st, req.block.value))
    ensures var r := CreateExercise(st, req, newId);
            var b := req.block.value;
            && ExclusiveAll(r.value)
            && Referential(r.value)
            && BlockAxis(r.value, b) == Insert(BlockAxis(st, b), newId, req.positionInBlock.GetOr(CountByBlock(st, b)))
            && OnlyBlockAxisChanged(st, r.value, b)
  {
    var s := req.session.value;
    var b := req.block.value;
    var k := req.positionInBlock.GetOr(CountByBlock(st, b));
    var e := Exercise(s, Some(b), req.measures, None, Some(k));
    if req.positionInBlock.None? {
      BlockAxisSize(st, b);
      AppendShiftsNothing(BlockAxis(st, b));
      PutNewBlockExercise(st, st, newId, e);
    } else {
      var st1 := ShiftMembers(st, Some(b), None, None, InsertAt(k));
      ShiftMembersEffect(st, b, None, None, InsertAt(k));
      PutNewBlockExercise(st, st1, newId, e);
    }
  }

  /** A free create inserts the new exercise into its session's domain and
      changes no other domain. */
  lemma CreateFreeEffect(st: State, req: ExerciseCreate, newId: ExerciseId)
    requires ExclusiveAll(st) && Referential(st)
    requires newId !in st.exercises
    requires req.block.None?
    requires CreateExercise(st, req, newId).Ok?
    requires req.session.Some? && Dense(SessionAxis(st, req.session.value))
    ensures var r := CreateExercise(st, req, newId);
            var s := req.session.value;
            && ExclusiveAll(r.value)
            && Referential(r.value)
            && SessionAxis(r.value, s) == Insert(SessionAxis(st, s), FreeItem(newId), req.position.GetOr(SessionSize(st, s)))
            && OnlySessionAxisChanged(st, r.value, s)
  {
    var s := req.session.value;
    var k := req.position.GetOr(SessionSize(st, s));
    var e := Exercise(s, None, req.measures, Some(k), req.positionInBlock);
    if req.position.None? {
      SessionAxisSize(st, s);
      AppendShiftsNothing(SessionAxis(st, s));
      PutNewFreeExercise(st, st, newId, e);
    } else {
      var st1 := ShiftSession(st, s, ByPosition, InsertAt(k));
      ShiftSessionEffect(st, s, ByPosition, InsertAt(k));
      PutNewFreeExercise(st, st1, newId, e);
    }
  }

  /** A create inserts the new exercise into the one domain it joins (its
      block's, or its session's when free), keeps the state well formed and
      changes no other domain. */
  lemma CreateExerciseKeepsDensity(st: State, req: ExerciseCreate, newId: ExerciseId)
    requires WellFormed(st)
    requires newId !in st.exercises
    ensures var r := CreateExercise(st, req, newId);
            r.Ok? ==>
              && WellFormed(r.value)
              && (req.block.Some? ==>
                    var b := req.block.value;
                    && BlockAxis(r.value, b) == Insert(BlockAxis(st, b), newId, req.positionInBlock.GetOr(CountByBlock(st, b)))
                    && OnlyBlockAxisChanged(st, r.value, b))
              && (req.block.None? ==>
                    var s := req.session.value;
                    && SessionAxis(r.value, s) == Insert(SessionAxis(st, s), FreeItem(newId), req.position.GetOr(SessionSize(st, s)))
                    && OnlySessionAxisChanged(st, r.value, s))
  {
    var r := CreateExercise(st, req, newId);
    if r.Ok? {
      if req.block.Some? {
        var b := req.block.value;
        CreateInBlockEffect(st, req, newId);
        BlockAxisSize(st, b);
        assert newId !in BlockAxis(st, b);
        InsertKeepsDense(BlockAxis(st, b), newId, req.positionInBlock.GetOr(CountByBlock(st, b)));
        DenseAfterBlockChange(st, r.value, b);
      } else {
        var s := req.session.value;
        CreateFreeEffect(st, req, newId);
        SessionAxisSize(st, s);
        assert FreeItem(newId) !in SessionAxis(st, s);
        InsertKeepsDense(SessionAxis(st, s), FreeItem(newId), req.position.GetOr(SessionSize(st, s)));
        DenseAfterSessionChange(st, r.value, s);
      }
    }
  }

  /** The in-block move relocates the exercise within its block's domain by
      the move rule and changes no other domain. */
  lemma MoveWithinBlockEffect(st: State, id: ExerciseId, target: int)
    requires ExclusiveAll(st) && Referential(st)
    requires id in st.exercises && st.exercises[id].block.Some?
    requires MoveWithinBlock(st, id, target).Ok?
    ensures var r := MoveWithinBlock(st, id, target);
            var b := st.exercises[id].block.value;
            && ExclusiveAll(r.value)
            && Referential(r.value)
            && BlockAxis(r.value, b) == Move(BlockAxis(st, b), id, target)
            && OnlyBlockAxisChanged(st, r.value, b)
  {
    MoveWithinBlockRecords(st, id, target);
    MoveWithinBlockAxes(st, id, target);
  }

  lemma MoveWithinBlockRecords(st: State, id: ExerciseId, target: int)
    requires ExclusiveAll(st) && Referential(st)
    requires id in st.exercises && st.exercises[id].block.Some?
    requires MoveWithinBlock(st, id, target).Ok?
    ensures ExclusiveAll(MoveWithinBlock(st, id, target).value)
    ensures Referential(MoveWithinBlock(st, id, target).value)
  {
    var ex := st.exercises[id];
    var op := MoveTo(OrZero(ex.positionInBlock), target);
    var st1 := ShiftMembers(st, ex.block, Some(ex.session), Some(id), op);
    var e := ex.(positionInBlock := Some(target));
    ShiftMembersShape(st, ex.block, Some(ex.session), Some(id), op);
    SameShapeSameMembers(st, st1);
    PutExclusive(st1, id, e);
    PutExerciseReferential(st1, id, e);
  }

  lemma MoveWithinBlockAxes(st: State, id: ExerciseId, target: int)
    requires id in st.exercises && st.exercises[id].block.Some?
    requires forall e :: e in st.exercises && st.exercises[e].block == st.exercises[id].block
               ==> st.exercises[e].session == st.exercises[id].session
    requires MoveWithinBlock(st, id, target).Ok?
    ensures var r := MoveWithinBlock(st, id, target);
            var b := st.exercises[id].block.value;
            && BlockAxis(r.value, b) == Move(BlockAxis(st, b), id, target)
            && OnlyBlockAxisChanged(st, r.value, b)
  {
    var r := MoveWithinBlock(st, id, target);
    var ex := st.exercises[id];
    var b := ex.block.value;
    var d := BlockAxis(st, b);
    var op := MoveTo(OrZero(ex.positionInBlock), target);
    var st1 := ShiftMembers(st, ex.block, Some(ex.session), Some(id), op);
    var e := ex.(positionInBlock := Some(target));
    assert r.value == st1.(exercises := st1.exercises[id := e]);
    assert id in MembersOf(st, b) && d[id] == OrZero(ex.positionInBlock);
    ShiftMembersOwnAxis(st, b, Some(ex.session), Some(id), op);
    ShiftMembersFrame(st, ex.block, Some(ex.session), Some(id), op);
    assert st1.exercises[id] == ex;
    PutMemberEffect(st1, id, e);
    OnlyBlockAxisChangedTrans(st, st1, r.value, b);
  }

  /** The session-level move relocates a free exercise within its session's
      domain by the move rule and changes no other domain. */
  lemma MoveWithinSessionEffect(st: State, id: ExerciseId, target: int)
    requires ExclusiveAll(st) && Referential(st)
    requires id in st.exercises && st.exercises[id].block.None?
    requires MoveWithinSession(st, id, target).Ok?
    ensures var r := MoveWithinSession(st, id, target);
            var s := st.exercises[id].session;
            && ExclusiveAll(r.value)
            && Referential(r.value)
            && SessionAxis(r.value, s) == Move(SessionAxis(st, s), FreeItem(id), target)
            && OnlySessionAxisChanged(st, r.value, s)
  {
    MoveWithinSessionRecords(st, id, target);
    MoveWithinSessionAxes(st, id, target);
  }

  lemma MoveWithinSessionRecords(st: State, id: ExerciseId, target: int)
    requires ExclusiveAll(st) && Referential(st)
    requires id in st.exercises && st.exercises[id].block.None?
    requires MoveWithinSession(st, id, target).Ok?
    ensures ExclusiveAll(MoveWithinSession(st, id, target).value)
    ensures Referential(MoveWithinSession(st, id, target).value)
  {
    var ex := st.exercises[id];
    var op := MoveTo(OrZero(ex.position), target);
    var st1 := ShiftSession(st, ex.session, ByPosition, op);
    var e := ex.(position := Some(target));
    ShiftSessionShape(st, ex.session, ByPosition, op);
    SameShapeSameMembers(st, st1);
    PutExclusive(st1, id, e);
    PutExerciseReferential(st1, id, e);
  }

  lemma MoveWithinSessionAxes(st: State, id: ExerciseId, target: int)
    requires ExclusiveAll(st)
    requires id in st.exercises && st.exercises[id].block.None?
    requires MoveWithinSession(st, id, target).Ok?
    ensures var r := MoveWithinSession(st, id, target);
            var s := st.exercises[id].session;
            && SessionAxis(r.value, s) == Move(SessionAxis(st, s), FreeItem(id), target)
            && OnlySessionAxisChanged(st, r.value, s)
  {
    var r := MoveWithinSession(st, id, target);
    var ex := st.exercises[id];
    var s := ex.session;
    var d := SessionAxis(st, s);
    var op := MoveTo(OrZero(ex.position), target);
    var st1 := ShiftSession(st, s, ByPosition, op);
    var e := ex.(position := Some(target));
    assert r.value == st1.(exercises := st1.exercises[id := e]);
    assert OnSessionAxis(st, s, FreeItem(id)) && d[FreeItem(id)] == OrZero(ex.position);
    ShiftSessionOwnAxis(st, s, ByPosition, op);
    ShiftSessionFrame(st, s, ByPosition, op);
    assert st1.exercises[id].session == s && st1.exercises[id].block == ex.block;
    PutFreeMemberEffect(st1, id, e);
    OnlySessionAxisChangedTrans(st, st1, r.value, s);
  }

  /** Overwriting the measures of an exercise moves nothing. */
  lemma MergeEffect(st: State, id: ExerciseId, upd: ExerciseUpdate)
    requires WellFormed(st)
    requires id in st.exercises
    ensures var e := st.exercises[id];
            var st' := st.(exercises := st.exercises[id := e.(measures := MergeMeasures(e.measures, upd))]);
            && WellFormed(st')
            && (forall s: SessionId :: SessionAxis(st', s) == SessionAxis(st, s))
            && (forall b: BlockId :: BlockAxis(st', b) == BlockAxis(st, b))
  {
    var e := st.exercises[id];
    var e' := e.(measures := MergeMeasures(e.measures, upd));
    var st' := st.(exercises := st.exercises[id := e']);
    PutSamePositions(st, id, e');
    PutExclusive(st, id, e');
    PutExerciseReferential(st, id, e');
    MergeKeepsDense(st, st');
  }

  lemma MergeKeepsDense(st: State, st': State)
    requires AllDense(st)
    requires forall s: SessionId :: SessionAxis(st', s) == SessionAxis(st, s)
    requires forall b: BlockId :: BlockAxis(st', b) == BlockAxis(st, b)
    ensures AllDense(st')
  {
    forall s: SessionId
      ensures Dense(SessionAxis(st', s))
    {
      assert SessionAxis(st', s) == SessionAxis(st, s);
    }
    forall b: BlockId
      ensures Dense(BlockAxis(st', b))
    {
      assert BlockAxis(st', b) == BlockAxis(st, b);
    }
  }

  /** Under the block references of a well-formed state, block `0` has no
      exercises: the unguarded in-block move of a free exercise finds the
      range `[0, -1]` empty. */
  lemma BlockZeroIsEmpty(st: State)
    requires Referential(st)
    ensures CountByBlock(st, 0) == 0
  {
    assert MembersOf(st, 0) == {};
  }

  /** The in-block update that runs the move: the block's domain follows
      the move rule and the measures are merged. */
  lemma UpdateInBlockMoving(st: State, id: ExerciseId, upd: ExerciseUpdate, blockGuard: bool)
    requires WellFormed(st)
    requires id in st.exercises && st.exercises[id].block.Some?
    requires BlockMoveRequested(st.exercises[id], upd, blockGuard)
    requires UpdateExercise(st, id, upd, blockGuard).Ok?
    ensures var r := UpdateExercise(st, id, upd, blockGuard);
            var b := st.exercises[id].block.value;
            && WellFormed(r.value)
            && BlockAxis(r.value, b) == Move(BlockAxis(st, b), id, upd.positionInBlock.value)
            && OnlyBlockAxisChanged(st, r.value, b)
  {
    var ex := st.exercises[id];
    var b := ex.block.value;
    var d := BlockAxis(st, b);
    var t := upd.positionInBlock.value;
    assert !SessionMoveRequested(ex, upd);
    var st1 := MoveWithinBlock(st, id, t).value;
    MoveWithinBlockEffect(st, id, t);
    BlockAxisSize(st, b);
    assert id in d;
    MoveKeepsDense(d, id, t);
    DenseAfterBlockChange(st, st1, b);
    var e := st1.exercises[id];
    assert UpdateExercise(st, id, upd, blockGuard).value
             == st1.(exercises := st1.exercises[id := e.(measures := MergeMeasures(e.measures, upd))]);
    MergeEffect(st1, id, upd);
  }

  /** The in-block update that does not move: only the measures change. */
  lemma UpdateInBlockInPlace(st: State, id: ExerciseId, upd: ExerciseUpdate, blockGuard: bool)
    requires WellFormed(st)
    requires id in st.exercises && st.exercises[id].block.Some?
    requires !BlockMoveRequested(st.exercises[id], upd, blockGuard)
    requires UpdateExercise(st, id, upd, blockGuard).Ok?
    ensures var r := UpdateExercise(st, id, upd, blockGuard);
            && WellFormed(r.value)
            && (forall s: SessionId :: SessionAxis(r.value, s) == SessionAxis(st, s))
            && (forall b: BlockId :: BlockAxis(r.value, b) == BlockAxis(st, b))
  {
    var ex := st.exercises[id];
    assert !SessionMoveRequested(ex, upd);
    assert UpdateExercise(st, id, upd, blockGuard).value
             == st.(exercises := st.exercises[id := ex.(measures := MergeMeasures(ex.measures, upd))]);
    MergeEffect(st, id, upd);
  }

  /** An update of an exercise in block `b` moves it within the block's
      domain (to itself when no new `position_in_block` is given) and
      changes no other domain. */
  lemma UpdateInBlockEffect(st: State, id: ExerciseId, upd: ExerciseUpdate, blockGuard: bool)
    requires WellFormed(st)
    requires id in st.exercises && st.exercises[id].block.Some?
    requires UpdateExercise(st, id, upd, blockGuard).Ok?
    ensures var r := UpdateExercise(st, id, upd, blockGuard);
            var ex := st.exercises[id];
            var b := ex.block.value;
            && WellFormed(r.value)
            && BlockAxis(r.value, b) == Move(BlockAxis(st, b), id, upd.positionInBlock.GetOr(OrZero(ex.positionInBlock)))
            && OnlyBlockAxisChanged(st, r.value, b)
  {
    var ex := st.exercises[id];
    var b := ex.block.value;
    if BlockMoveRequested(ex, upd, blockGuard) {
      UpdateInBlockMoving(st, id, upd, blockGuard);
    } else {
      UpdateInBlockStays(st, id, upd, blockGuard);
    }
  }

  lemma UpdateInBlockStays(st: State, id: ExerciseId, upd: ExerciseUpdate, blockGuard: bool)
    requires WellFormed(st)
    requires id in st.exercises && st.exercises[id].block.Some?
    requires !BlockMoveRequested(st.exercises[id], upd, blockGuard)
    requires UpdateExercise(st, id, upd, blockGuard).Ok?
    ensures var r := UpdateExercise(st, id, upd, blockGuard);
            var ex := st.exercises[id];
            var b := ex.block.value;
            && WellFormed(r.value)
            && BlockAxis(r.value, b) == Move(BlockAxis(st, b), id, upd.positionInBlock.GetOr(OrZero(ex.positionInBlock)))
            && OnlyBlockAxisChanged(st, r.value, b)
  {
    var ex := st.exercises[id];
    var b := ex.block.value;
    assert upd.positionInBlock.GetOr(OrZero(ex.positionInBlock)) == OrZero(ex.positionInBlock);
    UpdateInBlockInPlace(st, id, upd, blockGuard);
    UnchangedAxesMoveInPlace(st, UpdateExercise(st, id, upd, blockGuard).value, id, b);
  }

  lemma UnchangedAxesMoveInPlace(st: State, st': State, id: ExerciseId, b: BlockId)
    requires id in st.exercises && st.exercises[id].block == Some(b)
    requires forall s: SessionId :: SessionAxis(st', s) == SessionAxis(st, s)
    requires forall b': BlockId :: BlockAxis(st', b') == BlockAxis(st, b')
    ensures BlockAxis(st', b) == Move(BlockAxis(st, b), id, OrZero(st.exercises[id].positionInBlock))
    ensures OnlyBlockAxisChanged(st, st', b)
  {
    var d := BlockAxis(st, b);
    assert id in d && d[id] == OrZero(st.exercises[id].positionInBlock);
    MoveInPlace(d, id);
  }

  /** An update of a free exercise moves it within its session's domain (to
      itself when no new `position` is given) and changes no other domain;
      in particular a new `position_in_block` never takes effect. */
  lemma UpdateFreeEffect(st: State, id: ExerciseId, upd: ExerciseUpdate, blockGuard: bool)
    requires WellFormed(st)
    requires id in st.exercises && st.exercises[id].block.None?
    requires UpdateExercise(st, id, upd, blockGuard).Ok?
    ensures var r := UpdateExercise(st, id, upd, blockGuard);
            var ex := st.exercises[id];
            var s := ex.session;
            && WellFormed(r.value)
            && SessionAxis(r.value, s) == Move(SessionAxis(st, s), FreeItem(id), upd.position.GetOr(OrZero(ex.position)))
            && OnlySessionAxisChanged(st, r.value, s)
  {
    var r := UpdateExercise(st, id, upd, blockGuard);
    var ex := st.exercises[id];
    var s := ex.session;
    var d := SessionAxis(st, s);
    var t := upd.position.GetOr(OrZero(ex.position));
    assert FreeItem(id) in d && d[FreeItem(id)] == OrZero(ex.position);
    BlockZeroIsEmpty(st);
    assert !BlockMoveRequested(ex, upd, blockGuard);
    var st1 := if SessionMoveRequested(ex, upd) then MoveWithinSession(st, id, t).value else st;
    if SessionMoveRequested(ex, upd) {
      MoveWithinSessionEffect(st, id, t);
      SessionAxisSize(st, s);
      MoveKeepsDense(d, FreeItem(id), t);
      DenseAfterSessionChange(st, st1, s);
    } else {
      MoveInPlace(d, FreeItem(id));
    }
    assert SessionAxis(st1, s) == Move(d, FreeItem(id), t);
    var e := st1.exercises[id];
    assert r.value == st1.(exercises := st1.exercises[id := e.(measures := MergeMeasures(e.measures, upd))]);
    MergeEffect(st1, id, upd);
  }

  /** An update moves the exercise within the one domain it belongs to,
      keeps the state well formed and changes no other domain. */
  lemma UpdateExerciseKeepsDensity(st: State, id: ExerciseId, upd: ExerciseUpdate, blockGuard: bool)
    requires WellFormed(st)
    ensures var r := UpdateExercise(st, id, upd, blockGuard);
            r.Ok? ==>
              var ex := st.exercises[id];
              && WellFormed(r.value)
              && (ex.block.Some? ==>
                    var b := ex.block.value;
                    && BlockAxis(r.value, b) == Move(BlockAxis(st, b), id, upd.positionInBlock.GetOr(OrZero(ex.positionInBlock)))
                    && OnlyBlockAxisChanged(st, r.value, b))
              && (ex.block.None? ==>
                    var s := ex.session;
                    && SessionAxis(r.value, s) == Move(SessionAxis(st, s), FreeItem(id), upd.position.GetOr(OrZero(ex.position)))
                    && OnlySessionAxisChanged(st, r.value, s))
  {
    if UpdateExercise(st, id, upd, blockGuard).Ok? {
      if st.exercises[id].block.Some? {
        UpdateInBlockEffect(st, id, upd, blockGuard);
      } else {
        UpdateFreeEffect(st, id, upd, blockGuard);
      }
    }
  }

  /** Deleting an exercise of block `b` removes it from the block's domain
      and changes no other domain. */
  lemma DeleteInBlockEffect(st: State, id: ExerciseId)
    requires ExclusiveAll(st) && Referential(st)
    requires id in st.exercises && st.exercises[id].block.Some?
    ensures var r := DeleteExercise(st, id);
            var b := st.exercises[id].block.value;
            && ExclusiveAll(r.value)
            && Referential(r.value)
            && BlockAxis(r.value, b) == Remove(BlockAxis(st, b), id)
            && OnlyBlockAxisChanged(st, r.value, b)
  {
    var ex := st.exercises[id];
    var b := ex.block.value;
    var op := RemoveAt(OrZero(ex.positionInBlock));
    var st1 := st.(exercises := st.exercises - {id});
    DropExerciseEffect(st, id);
    forall s: SessionId
      ensures SessionAxis(st1, s) == SessionAxis(st, s)
    {
      assert FreeItem(id) !in SessionAxis(st, s);
    }
    forall b': BlockId | b' != b
      ensures BlockAxis(st1, b') == BlockAxis(st, b')
    {
      assert id !in BlockAxis(st, b');
    }
    assert OnlyBlockAxisChanged(st, st1, b);
    forall e | e in MembersOf(st1, b)
      ensures st1.exercises[e].session == ex.session
    {
      assert st.exercises[e].block == ex.block;
    }
    ShiftMembersEffect(st1, b, Some(ex.session), Some(id), op);
    OnlyBlockAxisChangedTrans(st, st1, DeleteExercise(st, id).value, b);
  }

  /** Deleting a free exercise removes it from its session's domain and
      changes no other domain. */
  lemma DeleteFreeEffect(st: State, id: ExerciseId)
    requires ExclusiveAll(st) && Referential(st)
    requires id in st.exercises && st.exercises[id].block.None?
    ensures var r := DeleteExercise(st, id);
            var s := st.exercises[id].session;
            && ExclusiveAll(r.value)
            && Referential(r.value)
            && SessionAxis(r.value, s) == Remove(SessionAxis(st, s), FreeItem(id))
            && OnlySessionAxisChanged(st, r.value, s)
  {
    var ex := st.exercises[id];
    var s := ex.session;
    var op := RemoveAt(OrZero(ex.position));
    var st1 := st.(exercises := st.exercises - {id});
    DropExerciseEffect(st, id);
    forall s': SessionId | s' != s
      ensures SessionAxis(st1, s') == SessionAxis(st, s')
    {
      assert FreeItem(id) !in SessionAxis(st, s');
    }
    forall b: BlockId
      ensures BlockAxis(st1, b) == BlockAxis(st, b)
    {
      assert id !in BlockAxis(st, b);
    }
    assert OnlySessionAxisChanged(st, st1, s);
    ShiftSessionEffect(st1, s, ByPosition, op);
    OnlySessionAxisChangedTrans(st, st1, DeleteExercise(st, id).value, s);
  }

  /** A delete removes the exercise from the one domain it belonged to,
      keeps the state well formed and changes no other domain. */
  lemma DeleteExerciseKeepsDensity(st: State, id: ExerciseId)
    requires WellFormed(st)
    ensures var r := DeleteExercise(st, id);
            r.Ok? ==>
              var ex := st.exercises[id];
              && WellFormed(r.value)
              && (ex.block.Some? ==>
                    var b := ex.block.value;
                    && BlockAxis(r.value, b) == Remove(BlockAxis(st, b), id)
                    && OnlyBlockAxisChanged(st, r.value, b))
              && (ex.block.None? ==>
                    var s := ex.session;
                    && SessionAxis(r.value, s) == Remove(SessionAxis(st, s), FreeItem(id))
                    && OnlySessionAxisChanged(st, r.value, s))
  {
    var r := DeleteExercise(st, id);
    if r.Ok? {
      var ex := st.exercises[id];
      if ex.block.Some? {
        var b := ex.block.value;
        DeleteInBlockEffect(st, id);
        assert id in BlockAxis(st, b);
        RemoveKeepsDense(BlockAxis(st, b), id);
        DenseAfterBlockChange(st, r.value, b);
      } else {
        var s := ex.session;
        DeleteFreeEffect(st, id);
        assert FreeItem(id) in SessionAxis(st, s);
        RemoveKeepsDense(SessionAxis(st, s), FreeItem(id));
        DenseAfterSessionChange(st, r.value, s);
      }
    }
  }
}
