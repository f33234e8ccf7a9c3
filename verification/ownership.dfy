/** The ownership guard: a block or an exercise resolves to its session, and
the session's `user_id` must be the acting user. The checks only read the
state; they return `Pass` or the error the source raises. */
module Ownership {
  import opened Outcomes
  import opened Store

  /** The caller owns an existing session. */
  predicate OwnsSession(st: State, user: UserId, s: SessionId) {
    s in st.sessions && st.sessions[s].owner == user
  }

  function CheckSession(st: State, user: UserId, s: SessionId): (r: Check)
    ensures r.Pass? <==> OwnsSession(st, user, s)
    ensures r == Fail(SessionNotFound) <==> s !in st.sessions
    ensures r == Fail(NotOwner) <==> s in st.sessions && st.sessions[s].owner != user
  {
    if s !in st.sessions then Fail(SessionNotFound)
    else if st.sessions[s].owner != user then Fail(NotOwner)
    else Pass
  }

  function CheckBlock(st: State, user: UserId, b: BlockId): (r: Check)
    ensures b !in st.blocks ==> r == Fail(BlockNotFound)
    ensures b in st.blocks ==> r == CheckSession(st, user, st.blocks[b].session)
    ensures r.Pass? <==> b in st.blocks && OwnsSession(st, user, st.blocks[b].session)
  {
    if b !in st.blocks then Fail(BlockNotFound)
    else CheckSession(st, user, st.blocks[b].session)
  }

  function CheckExercise(st: State, user: UserId, e: ExerciseId): (r: Check)
    ensures e !in st.exercises ==> r == Fail(ExerciseNotFound)
    ensures e in st.exercises ==> r == CheckSession(st, user, st.exercises[e].session)
    ensures r.Pass? <==> e in st.exercises && OwnsSession(st, user, st.exercises[e].session)
  {
    if e !in st.exercises then Fail(ExerciseNotFound)
    else CheckSession(st, user, st.exercises[e].session)
  }

  /** Ownership is transitive through the block: in a state where the block's
      exercises share its session, whoever may touch one of the block's
      exercises may touch the block, and conversely. */
  lemma ExerciseOwnerIsBlockOwner(st: State, user: UserId, e: ExerciseId)
    requires Referential(st)
    requires e in st.exercises
    requires st.exercises[e].block.Some? && st.exercises[e].block.value in st.blocks
    ensures CheckExercise(st, user, e) == CheckBlock(st, user, st.exercises[e].block.value)
  {
  }
}
