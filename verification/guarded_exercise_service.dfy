/** The exercise composer behind the ownership guard (the version wired by
dependency injection): every public operation first runs the ownership check
of the record it names, and fails with that check's error before reading or
changing anything else.

Its `create_exercise` reads two locals, `position` and `position_in_block`,
that it assigns only later in the same function, so Python raises
`UnboundLocalError` on every call that gets past the first guards.
`CreateExerciseAsWritten` models that; `CreateExercise` is the evidently
intended operation, which takes both values from the request as the
keyword-argument version does.
 */
module GuardedExerciseService {
  import opened Outcomes
  import opened PositionIndex
  import opened Store
  import opened Reindex
  import opened Ownership
  import ES = ExerciseService

  /** `list_by_session`: the exercises of the session, for its owner. */
  function ListBySession(st: State, user: UserId, s: SessionId): (r: Result<set<ExerciseId>>)
    ensures r.Ok? <==> OwnsSession(st, user, s)
    ensures r.Err? ==> r.error == CheckSession(st, user, s).error
    ensures r.Ok? ==> forall e :: e in r.value <==> e in st.exercises && st.exercises[e].session == s
  {
    var check := CheckSession(st, user, s);
    if check.Fail? then Err(check.error) else
    Ok(set e | e in st.exercises && st.exercises[e].session == s)
  }

  /** `list_by_block`: the exercises of the block, for the owner of its session. */
  function ListByBlock(st: State, user: UserId, b: BlockId): (r: Result<set<ExerciseId>>)
    ensures r.Ok? <==> b in st.blocks && OwnsSession(st, user, st.blocks[b].session)
    ensures r.Err? ==> r.error == CheckBlock(st, user, b).error
    ensures r.Ok? ==> r.value == MembersOf(st, b) && |r.value| == CountByBlock(st, b)
  {
    var check := CheckBlock(st, user, b);
    if check.Fail? then Err(check.error) else
    Ok(MembersOf(st, b))
  }

  /** `get_exercise`: the record, for the owner of its session. The
      "not found" answer of the lookup is never reached: the check has
      already failed with `ExerciseNotFound`. */
  function GetExercise(st: State, user: UserId, id: ExerciseId): (r: Result<Option<Exercise>>)
    ensures r.Ok? <==> id in st.exercises && OwnsSession(st, user, st.exercises[id].session)
    ensures r.Err? ==> r.error == CheckExercise(st, user, id).error
    ensures r.Ok? ==> r.value == Some(st.exercises[id])
  {
    var check := CheckExercise(st, user, id);
    if check.Fail? then Err(check.error) else
    Ok(if id in st.exercises then Some(st.exercises[id]) else None)
  }

  /** `create_exercise` as written: after the session, ownership and block
      guards, the first read of `position` or `position_in_block` fails. */
  function CreateExerciseAsWritten(st: State, user: UserId, req: ES.ExerciseCreate, newId: ExerciseId): (r: Result<State>)
    ensures r.Err?
    ensures req.session.None? ==> r == Err(MissingSession)
    ensures req.session.Some? && !OwnsSession(st, user, req.session.value) ==>
              r.error == CheckSession(st, user, req.session.value).error
    ensures r == Err(BlockSessionMismatch) <==>
              && req.session.Some? && OwnsSession(st, user, req.session.value)
              && req.block.Some? && !ValidateBlockSession(st, req.block.value, req.session.value)
    ensures r == Err(UnboundLocal) <==>
              && req.session.Some? && OwnsSession(st, user, req.session.value)
              && (req.block.Some? ==> ValidateBlockSession(st, req.block.value, req.session.value))
  {
    if req.session.None? then Err(MissingSession)
    else
      var s := req.session.value;
      var check := CheckSession(st, user, s);
      if check.Fail? then Err(check.error) else
      if req.block.Some? && !ValidateBlockSession(st, req.block.value, s) then Err(BlockSessionMismatch)
      else Err(UnboundLocal)
  }

  /** `create_exercise` as intended: the session and ownership guards, then
      the keyword-argument create with the request's `position` and
      `position_in_block`. */
  function CreateExercise(st: State, user: UserId, req: ES.ExerciseCreate, newId: ExerciseId): (r: Result<State>)
    ensures req.session.None? ==> r == Err(MissingSession)
    ensures req.session.Some? && !OwnsSession(st, user, req.session.value) ==>
              r == Err(CheckSession(st, user, req.session.value).error)
    ensures req.session.Some? && OwnsSession(st, user, req.session.value) ==>
              r == ES.CreateExercise(st, req, newId)
    ensures r.Ok? ==> req.session.Some? && OwnsSession(st, user, req.session.value)
  {
    if req.session.None? then Err(MissingSession)
    else
      var check := CheckSession(st, user, req.session.value);
      if check.Fail? then Err(check.error) else
      ES.CreateExercise(st, req, newId)
  }

  /** `update_exercise`: the exercise's ownership check, then the shared
      update with the in-block move guarded by `block_id is not None`. */
  function UpdateExercise(st: State, user: UserId, id: ExerciseId, upd: ES.ExerciseUpdate): (r: Result<State>)
    ensures r.Err? && !CheckExercise(st, user, id).Pass? ==> r.error == CheckExercise(st, user, id).error
    ensures CheckExercise(st, user, id).Pass? ==> r == ES.UpdateExercise(st, id, upd, true)
    ensures r.Ok? ==> id in st.exercises && OwnsSession(st, user, st.exercises[id].session)
  {
    var check := CheckExercise(st, user, id);
    if check.Fail? then Err(check.error) else
    ES.UpdateExercise(st, id, upd, true)
  }

  /** `delete_exercise`: the exercise's ownership check, then the shared delete. */
  function DeleteExercise(st: State, user: UserId, id: ExerciseId): (r: Result<State>)
    ensures r.Err? && !CheckExercise(st, user, id).Pass? ==> r.error == CheckExercise(st, user, id).error
    ensures CheckExercise(st, user, id).Pass? ==> r == ES.DeleteExercise(st, id)
    ensures r.Ok? <==> id in st.exercises && OwnsSession(st, user, st.exercises[id].session)
  {
    var check := CheckExercise(st, user, id);
    if check.Fail? then Err(check.error) else
    ES.DeleteExercise(st, id)
  }

  // ---------------------------------------------------------------------
  // Properties
  // ---------------------------------------------------------------------

  /** Every request the intended create accepts is one the written create
      turns into `UnboundLocalError`. */
  lemma CreateAsWrittenAlwaysFails(st: State, user: UserId, req: ES.ExerciseCreate, newId: ExerciseId)
    requires CreateExercise(st, user, req, newId).Ok?
    ensures CreateExerciseAsWritten(st, user, req, newId) == Err(UnboundLocal)
  {
  }

  /** A concrete request showing the written create failing where the
      intended one appends: the owner of an empty session adds a free
      exercise. */
  lemma CreateAsWrittenWitness()
    ensures var st := State(map[1 := Session(7)], map[], map[]);
            var req := ES.ExerciseCreate(Some(1), None, Measures("squat", None, None, None, None, None), None, None);
            && CreateExerciseAsWritten(st, 7, req, 1) == Err(UnboundLocal)
            && CreateExercise(st, 7, req, 1).Ok?
            && CreateExercise(st, 7, req, 1).value.exercises[1].position == Some(0)
  {
    var st := State(map[1 := Session(7)], map[], map[]);
    assert SessionItems(st, 1) == {};
    assert FreeOf(st, 1) == {};
    assert BlocksOf(st, 1) == {};
  }

  /** The owner-checked operations keep the state well formed, as the
      shared operations do. */
  lemma GuardedOperationsKeepDensity(st: State, user: UserId, id: ExerciseId, upd: ES.ExerciseUpdate,
                                     req: ES.ExerciseCreate, newId: ExerciseId)
    requires WellFormed(st)
    requires newId !in st.exercises
    ensures CreateExercise(st, user, req, newId).Ok? ==> WellFormed(CreateExercise(st, user, req, newId).value)
    ensures UpdateExercise(st, user, id, upd).Ok? ==> WellFormed(UpdateExercise(st, user, id, upd).value)
    ensures DeleteExercise(st, user, id).Ok? ==> WellFormed(DeleteExercise(st, user, id).value)
  {
    ES.CreateExerciseKeepsDensity(st, req, newId);
    ES.UpdateExerciseKeepsDensity(st, id, upd, true);
    ES.DeleteExerciseKeepsDensity(st, id);
  }

  /** The two versions disagree only on a new `position_in_block` sent for
      a free exercise: the keyword-argument version counts the members of
      block `0` and rejects it, the guarded version ignores it. */
  lemma StrayPositionInBlockOnUpdate(st: State, id: ExerciseId, upd: ES.ExerciseUpdate)
    requires Referential(st)
    requires id in st.exercises && st.exercises[id].block.None?
    requires upd.positionInBlock.Some? && upd.positionInBlock.value != OrZero(st.exercises[id].positionInBlock)
    ensures ES.UpdateExercise(st, id, upd, false) == Err(InvalidPositionInBlock)
    ensures ES.UpdateExercise(st, id, upd, true) == ES.UpdateExercise(st, id, upd.(positionInBlock := None), true)
  {
    ES.BlockZeroIsEmpty(st);
  }

  /** Apart from that case the two versions agree: together with
      `StrayPositionInBlockOnUpdate` this covers every request. */
  lemma VersionsAgreeOtherwise(st: State, id: ExerciseId, upd: ES.ExerciseUpdate)
    requires id in st.exercises ==>
               || st.exercises[id].block.Some?
               || upd.positionInBlock.None?
               || upd.positionInBlock.value == OrZero(st.exercises[id].positionInBlock)
    ensures ES.UpdateExercise(st, id, upd, false) == ES.UpdateExercise(st, id, upd, true)
  {
  }
}
