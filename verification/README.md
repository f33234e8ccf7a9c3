# Ordered composition in OnTheFloor, modelled in Dafny

OnTheFloor tracks training sessions. A session holds a sequence of
**blocks** (AMRAP, EMOM, ...) interleaved with **free exercises**, and every
block holds its own sequence of exercises. The services keep two kinds of
ordering domain dense and zero-based:

- the **session-level domain** of a session: its blocks and its free
  exercises (`block_id is None`) on one shared `position` axis;
- the **block-level domain** of a block: its exercises on `position_in_block`.

Every mutation is one of three passes over a domain: insert at `k`
(members at or above `k` go up by one), move `old → new` (members between
follow the move rule) and remove at `p` (members above `p` go down by one).
Each pass runs only after its guards: range checks, "an exercise in a block
has no session-level position", "the block lies in the exercise's session",
and, in the dependency-injected exercise service, the ownership check that
resolves a block or an exercise to its session's owner.

The model is functional. A state is three maps (sessions, blocks, exercises).
A domain is a `map<K, int>` from member to position. Each service operation
is a pure function from a state to `Result<State>`, and every error the
source raises is an `Error` value.

| file | module | what it holds |
|---|---|---|
| `outcomes.dfy` | `Outcomes` | `Option`, `Result`, `Check`, one `Error` per exception message |
| `position_index.dfy` | `PositionIndex` | the three passes on a domain map: density, frame, order and inverse lemmas |
| `store.dfy` | `Store` | records, the DAO counts as queries, the two domain maps, well-formedness |
| `reindex.dfy` | `Reindex` | the passes applied to a whole state, with the source's own filters |
| `ownership.dfy` | `Ownership` | the three ownership checks |
| `block_service.dfy` | `BlockService` | `create_block`, `update_block`, `delete_block` |
| `exercise_service.dfy` | `ExerciseService` | the keyword-argument exercise service |
| `guarded_exercise_service.dfy` | `GuardedExerciseService` | the ownership-checked exercise service |
| `round_trips.dfy` | `RoundTrips` | delete undoes create; a block moved back restores the state |
| `shift_loops.dfy` | `ShiftLoops` | the item-by-item reindex loops and their intermediate states |
| `block_moves.dfy` | `BlockMoves` | the `update_block` loop against the blocks table's unique constraint |
| `scenarios.dfy` | `Scenarios` | the repository's service tests replayed on the model |

`Store.WellFormed` is the invariant set the services maintain:

- every domain is dense;
- an exercise in a block has `position_in_block` and no `position`, and a
  free exercise has `position`;
- block references agree on sessions.

The code enforces exclusivity only partly. A free exercise created with a
`position_in_block` keeps it (`src/services/exercise_service.py:118`), so
the model keeps the source's three optional fields instead of a tagged
placement.

What the code does, which the model follows:

- `delete_block` deletes no exercise. The service code leaves the block's
  exercises untouched; what the ORM does to their `block_id` when the block
  row goes (the relationship at `src/data/models.py:122` declares no cascade)
  is persistence behaviour and is not modelled.
- The block service runs no ownership check.
- The keyword-argument `create_exercise` does not check that the session
  exists.
- Rows are committed one at a time rather than in one transaction; see
  Findings.
- The error kinds are the source's own messages (`Outcomes.Error`).

## Model

| member | source | states |
|---|---|---|
| Ownership.CheckSession | src/services/domain_services/ownership_service.py:12-17 | fails with "Session not found" exactly when the session is absent, with the permission error exactly when it belongs to another user, and passes iff the caller owns it |
| Ownership.CheckBlock | src/services/domain_services/ownership_service.py:19-23 | "Block not found" for an absent block, otherwise exactly the session check on the block's session; passes iff the block exists and the caller owns its session |
| Ownership.CheckExercise | src/services/domain_services/ownership_service.py:25-29 | "Exercise not found" for an absent exercise, otherwise exactly the session check on the exercise's session; passes iff the exercise exists and the caller owns its session |
| Ownership.ExerciseOwnerIsBlockOwner | src/services/domain_services/ownership_service.py:19-29 | when block references agree on sessions, the check of an exercise and the check of its block give the same answer |
| PositionIndex.DenseIsExactRange | src/services/spe_services/block_service.py:72-78 | a domain is dense (distinct positions, all in `0..n-1`) iff its positions are exactly the set `{0, ..., n-1}` |
| PositionIndex.InsertKeepsDense | src/services/spe_services/block_service.py:77-103 | inserting a new member at any `k` in `[0, n]` into a dense domain of size `n` gives a dense domain of size `n+1` |
| PositionIndex.RemoveKeepsDense | src/services/spe_services/block_service.py:38-49 | removing a member from a dense domain and lowering those above it gives a dense domain one smaller |
| PositionIndex.MoveKeepsDense | src/services/spe_services/block_service.py:137-151 | moving a member to any target in `[0, n-1]` keeps a dense domain dense and of the same size |
| PositionIndex.MoveIsRemoveThenInsert | src/services/spe_services/block_service.py:140-151 | the move rule equals removing the member and re-inserting it at the target |
| PositionIndex.MoveInPlace | src/services/spe_services/block_service.py:128 | moving a member to the position it holds changes nothing, which is why the source skips that case |
| PositionIndex.AppendShiftsNothing | src/services/spe_services/block_service.py:77-78 | in a dense domain an insertion at the size raises nobody, so appending without a pass is the insert at `n` |
| PositionIndex.RemoveUndoesInsert | src/services/exercise_service.py:242-252 | removing the member just inserted restores every other member's position |
| PositionIndex.InsertUndoesRemove | src/services/exercise_service.py:72-89 | re-inserting a removed member at its old position restores the domain |
| PositionIndex.MoveBackRestores | src/services/exercise_service.py:164-180 | moving a member away and back to its old position restores the domain |
| PositionIndex.InsertKeepsOrder | src/services/spe_services/block_service.py:88-90 | an insertion keeps the relative order of the existing members, and the newcomer comes after exactly those that were below `k` |
| PositionIndex.RemoveKeepsOrder | src/services/spe_services/block_service.py:43-45 | a removal keeps the relative order of the remaining members |
| PositionIndex.MoveFrame | src/services/spe_services/block_service.py:140-145 | after a move the member is at the target, members outside the travelled span keep their positions, every other member moves by at most one, and the others keep their relative order |
| Store.SessionAxisSize | src/services/spe_services/block_service.py:72-75 | `count_by_session + count_free_by_session` is the number of members of the session-level domain |
| Store.BlockAxisSize | src/services/exercise_service.py:73 | `count_by_block` is the number of members of the block-level domain |
| Store.FreeTestsAgree | src/services/exercise_service.py:101-103 | in a well-formed state the block service's test for a free exercise (`block_id is None`) and the exercise service's test (`position is not None`) agree |
| Reindex.ShiftSessionEffect | src/services/spe_services/block_service.py:83-94 | a session-level pass applies the pass to that session's domain and changes no other domain, and it keeps exclusivity and block references |
| Reindex.ShiftMembersEffect | src/services/exercise_service.py:81-89 | an in-block pass applies the pass to that block's domain and changes no other domain, and it keeps the record invariants |
| Reindex.DenseAfterSessionChange | src/services/exercise_service.py:253-265 | a change confined to one session-level domain keeps every domain dense once that domain is |
| Reindex.DenseAfterBlockChange | src/services/exercise_service.py:242-252 | a change confined to one block-level domain keeps every domain dense once that domain is |
| Reindex.PutBlockEffect | src/services/spe_services/block_service.py:96-103 | storing a block sets its entry in its session's domain and changes no other domain |
| Reindex.DropBlockEffect | src/services/spe_services/block_service.py:177 | deleting a block row takes it out of every session-level domain and changes no block-level domain (no cascade) |
| Reindex.PutExerciseEffect | src/services/exercise_service.py:114-126 | storing an exercise that is new, or that keeps its session and block, sets its entry in the one domain it belongs to (its block's, or its session's when free) and changes no other domain |
| Reindex.DropExerciseEffect | src/services/exercise_service.py:240 | deleting an exercise row takes it out of every domain and changes nothing else in them |
| BlockService.CreateBlock | src/services/spe_services/block_service.py:54-103 | "Session not found" iff the session is absent; an invalid block position iff a given position lies outside `[0, total]`; on success the new block sits at the given position or at `total`, and no other record is added |
| BlockService.UpdateBlock | src/services/spe_services/block_service.py:108-160 | "Block not found" iff the block is absent; an invalid position iff a new, different position lies outside `[0, total-1]`; on success the block keeps its session and takes each supplied field, keeping the others |
| BlockService.DeleteBlock | src/services/spe_services/block_service.py:165-185 | "Block not found" iff the block is absent; on success exactly that block is gone and the service rewrites no exercise's `block_id` (no cascade in the service code) |
| BlockService.CreateBlockKeepsDensity | src/services/spe_services/block_service.py:72-103 | a create inserts the new block into its session's domain at the requested position (or at the end), keeps the state well formed, and changes no other domain |
| BlockService.UpdateBlockShift | src/services/spe_services/block_service.py:137-149 | the pass `update_block` runs applies the move rule to the session's domain and leaves the moved block where it was |
| BlockService.UpdateBlockEffect | src/services/spe_services/block_service.py:128-160 | an update moves the block within its session's domain to the new position (to itself when none is given) and changes no other domain |
| BlockService.UpdateBlockKeepsDensity | src/services/spe_services/block_service.py:108-160 | an update keeps the state well formed and changes only the block's session domain, by the move rule |
| BlockService.DeleteBlockEffect | src/services/spe_services/block_service.py:165-185 | a delete removes the block from its session's domain, lowers the members above it, and changes no other domain (the block's own exercises included) |
| BlockService.DeleteBlockKeepsDensity | src/services/spe_services/block_service.py:165-185 | a delete keeps the state well formed |
| ExerciseService.CreateExercise | src/services/exercise_service.py:41-126 | each guard fails with its own message exactly under its condition, in the source's order; on success the new exercise sits in a block at the given or appended `position_in_block`, or free at the given or appended `position`, and no other record is added |
| ExerciseService.MergeMeasures | src/services/exercise_service.py:211-222 | each measured field is overwritten exactly when the update supplies it |
| ExerciseService.MoveWithinBlock | src/services/exercise_service.py:164-180 | the in-block move fails iff the target lies outside `[0, count_by_block-1]`, and otherwise gives the exercise the target while keeping every record's session and block |
| ExerciseService.MoveWithinSession | src/services/exercise_service.py:185-206 | the session-level move fails iff the target lies outside `[0, blocks+free-1]`, and otherwise gives the exercise the target while keeping every record's session and block |
| ExerciseService.UpdateExercise | src/services/exercise_service.py:131-224 | "Exercise not found", "Cannot move ... out of its block" and the two range errors each occur exactly under their conditions; on success the exercise keeps its session and block, takes the merged measures, and takes a new position only when one was requested |
| ExerciseService.MoveInSessionThenMerge | src/services/exercise_service.py:185-224 | the session-level half of an update fails only on an out-of-range target, and otherwise changes only the requested position and the measures |
| ExerciseService.DeleteExercise | src/services/exercise_service.py:229-265 | "Exercise not found" iff the exercise is absent; on success exactly that exercise is gone |
| ExerciseService.CreateInBlockEffect | src/services/exercise_service.py:72-89 | an in-block create inserts the exercise into its block's domain and changes no other domain |
| ExerciseService.CreateFreeEffect | src/services/exercise_service.py:90-111 | a free create inserts the exercise into its session's domain, next to the blocks, and changes no other domain |
| ExerciseService.CreateExerciseKeepsDensity | src/services/exercise_service.py:41-126 | a create keeps the state well formed and changes only the one domain it joins |
| ExerciseService.MoveWithinBlockEffect | src/services/exercise_service.py:164-180 | the in-block move relocates the exercise within its block's domain by the move rule and changes no other domain |
| ExerciseService.MoveWithinSessionEffect | src/services/exercise_service.py:185-206 | the session-level move relocates a free exercise within its session's domain by the move rule and changes no other domain |
| ExerciseService.MergeEffect | src/services/exercise_service.py:211-224 | overwriting the measures of an exercise moves nothing and keeps the state well formed |
| ExerciseService.BlockZeroIsEmpty | src/services/exercise_service.py:165 | under the block references no exercise is in block `0`, so `count_by_block(block_id or 0)` is 0 for a free exercise |
| ExerciseService.UpdateInBlockEffect | src/services/exercise_service.py:158-180 | an update of an exercise in a block moves it within that block's domain (to itself when no new `position_in_block` is given), keeps the state well formed, and changes no other domain |
| ExerciseService.UpdateFreeEffect | src/services/exercise_service.py:185-206 | an update of a free exercise moves it within its session's domain (to itself when no new `position` is given), keeps the state well formed, and changes no other domain |
| ExerciseService.UpdateExerciseKeepsDensity | src/services/exercise_service.py:131-224 | an update keeps the state well formed and changes only the exercise's own domain |
| ExerciseService.DeleteInBlockEffect | src/services/exercise_service.py:242-252 | deleting an exercise of a block removes it from that block's domain only; free exercises and other blocks keep their positions |
| ExerciseService.DeleteFreeEffect | src/services/exercise_service.py:253-265 | deleting a free exercise removes it from its session's domain, lowering the blocks and free exercises above it, and changes no other domain |
| ExerciseService.DeleteExerciseKeepsDensity | src/services/exercise_service.py:229-265 | a delete keeps the state well formed and changes only the exercise's own domain |
| GuardedExerciseService.ListBySession | src/services/spe_services/exercise_service.py:19-24 | succeeds iff the caller owns the session, fails with the check's error otherwise, and returns exactly the session's exercises |
| GuardedExerciseService.ListByBlock | src/services/spe_services/exercise_service.py:26-31 | succeeds iff the block exists and the caller owns its session, and returns exactly the block's exercises |
| GuardedExerciseService.GetExercise | src/services/spe_services/exercise_service.py:33-39 | succeeds iff the exercise exists and the caller owns its session, and returns that exercise |
| GuardedExerciseService.CreateExerciseAsWritten | src/services/spe_services/exercise_service.py:44-63 | the create as written always fails; it fails with the unbound local exactly when the session, ownership and block guards all pass |
| GuardedExerciseService.CreateExercise | src/services/spe_services/exercise_service.py:44-122 | the intended create: the session guard, then the ownership check, then the keyword-argument create with the request's two positions |
| GuardedExerciseService.UpdateExercise | src/services/spe_services/exercise_service.py:127-215 | a failed ownership check gives its error; otherwise the result is the shared update with the in-block move guarded by `block_id is not None` |
| GuardedExerciseService.DeleteExercise | src/services/spe_services/exercise_service.py:220-257 | succeeds iff the exercise exists and the caller owns its session, and is then the shared delete |
| GuardedExerciseService.CreateAsWrittenAlwaysFails | src/services/spe_services/exercise_service.py:62-71 | every request the intended create accepts ends in the unbound local as written |
| GuardedExerciseService.CreateAsWrittenWitness | src/services/spe_services/exercise_service.py:62-93 | the owner of an empty session adding a free exercise: as written it fails, while the intended create puts the exercise at 0 |
| GuardedExerciseService.GuardedOperationsKeepDensity | src/services/spe_services/exercise_service.py:44-257 | the owner-checked create, update and delete keep the state well formed |
| GuardedExerciseService.StrayPositionInBlockOnUpdate | src/services/spe_services/exercise_service.py:154-155 | for a free exercise and a new `position_in_block`, the keyword version rejects the update while the guarded version ignores that field |
| GuardedExerciseService.VersionsAgreeOtherwise | src/services/spe_services/exercise_service.py:154-171 | in every other case (an exercise in a block, no `position_in_block`, or a free exercise sent the `position_in_block` it already has, 0 when it has none) the two versions of `update_exercise` give the same result |
| RoundTrips.ShiftSessionInsertRemove | src/services/spe_services/block_service.py:43-90 | closing the gap at `k` undoes making room at `k`, record by record |
| RoundTrips.RemoveAtEndIsIdle | src/services/spe_services/block_service.py:43-45 | in a well-formed state, closing a gap at the domain's size moves nobody |
| RoundTrips.ShiftMembersInsertRemove | src/services/exercise_service.py:244-252 | the in-block closing pass undoes the in-block opening pass, record by record |
| RoundTrips.BlockRemoveAtEndIsIdle | src/services/exercise_service.py:244-252 | in a well-formed state, closing a block-level gap at the block's size moves nobody |
| RoundTrips.DeleteUndoesCreateBlock | src/services/spe_services/block_service.py:54-185 | `delete_block` of the block `create_block` just made returns exactly the state before the create |
| RoundTrips.DeleteUndoesCreateExercise | src/services/exercise_service.py:41-265 | `delete_exercise` of the exercise `create_exercise` just made returns exactly the state before the create |
| RoundTrips.DeleteUndoesCreateInBlock | src/services/exercise_service.py:72-89 | the same round trip for an exercise created in a block |
| RoundTrips.DeleteUndoesCreateFree | src/services/exercise_service.py:90-111 | the same round trip for a free exercise |
| RoundTrips.ShiftSessionMoveBack | src/services/spe_services/block_service.py:137-151 | a session-level move followed by the reverse move restores every record other than the mover, when nothing else sits on the mover's old position |
| RoundTrips.OriginHeldOnlyByMover | src/services/spe_services/block_service.py:126 | in a well-formed state no other member of the session domain holds the moved block's old position |
| RoundTrips.MoveBlockBackRestores | src/services/spe_services/block_service.py:108-160 | moving a block with `update_block` and then moving it back to its old position returns exactly the original state |
| ShiftLoops.RunLoop | src/services/spe_services/block_service.py:140-149 | the item-by-item loop passes through one intermediate domain per visit, starts from the snapshot, and ends on the whole pass whatever the visiting order |
| ShiftLoops.InsertDescendingStepsInjective | src/services/spe_services/block_service.py:88-94 | raising positions from the top down never puts two members on one position at any intermediate step |
| ShiftLoops.RemoveAscendingStepsInjective | src/services/spe_services/block_service.py:43-49 | lowering positions from the bottom up, once the removed member is gone, never puts two members on one position at any intermediate step |
| ShiftLoops.MoveLoopCollides | src/services/spe_services/block_service.py:140-151 | as written, once the move loop is done and before the mover is written, the neighbour that closed the gap and the mover share the mover's old position, in every visiting order |
| ShiftLoops.ParkedMoveStepsInjective | src/services/spe_services/block_service.py:140-151 | with the mover parked at -1 first, the source's visiting order never puts two members on one position |
| ShiftLoops.ParkedMove | src/services/spe_services/block_service.py:137-151 | the corrected loop (park, shift, place) computes exactly the move rule, and every state it passes through is collision-free |
| ShiftLoops.ParkedMoveEnds | src/services/spe_services/block_service.py:151 | placing the parked member at its target after the loop gives the move rule |
| BlockMoves.DenseBlockSlots | src/data/models.py:107 | a dense session domain satisfies the blocks table's `(session_id, position)` uniqueness |
| BlockMoves.UpdateBlockLeavesCollision | src/services/spe_services/block_service.py:137-151 | as written, a valid move of a block whose neighbour towards the target is a block is accepted, but after the loop the neighbour and the mover both hold the mover's old position, breaking the uniqueness that held before |
| BlockMoves.UpdateBlockCollisionWitness | src/services/spe_services/block_service.py:137-151 | blocks at 0 and 1, the first moved to 1: block 2's commit would put both blocks at 0, which the constraint refuses, so `update_block` raises; the model's `UpdateBlock`, which assumes every write is stored, ends on the swap |
| BlockMoves.ParkedUpdateBlock | src/services/spe_services/block_service.py:137-151 | the corrected update visits the session's domain in the source's order with every intermediate state collision-free, and ends on the domain `update_block` produces |
| Scenarios.CreateBlockScenario | tests/services/test_block_service.py:10-42 | a block inserted at 1 raises the free exercise at 1 to 2 and leaves the block at 0 |
| Scenarios.UpdateBlockScenario | tests/services/test_block_service.py:60-89 | moving the block at 0 to 1 swaps it with the block at 1 and leaves the free exercise at 2 |
| Scenarios.DeleteBlockScenario | tests/services/test_block_service.py:129-144 | deleting the block at 1 lowers the block at 2 and the free exercise at 3 |
| Scenarios.CreateInBlockScenario | tests/services/test_exercice_service.py:31-54 | an exercise added to an empty block without a position lands at 0 in the block |
| Scenarios.UpdateFreeScenario | tests/services/test_exercice_service.py:59-89 | moving the free exercise at 0 to 2 lowers the free exercise at 1 and the block at 2 |
| Scenarios.UpdateInBlockScenario | tests/services/test_exercice_service.py:92-114 | moving the exercise at 0 of a block to 1 swaps it with its sibling |
| Scenarios.DeleteFreeScenario | tests/services/test_exercice_service.py:119-137 | deleting the free exercise at 1 lowers the free exercise at 2 and the block at 3 |
| Scenarios.DeleteInBlockScenario | tests/services/test_exercice_service.py:139-160 | deleting the exercise at 0 of a block lowers its sibling; the other block's exercise and the free exercise keep their positions |

## Left out

- HTTP routes, request schemas, JWT handling and the dependency-injection
  wiring. They are transport and configuration; the acting user is a
  parameter.
- The SQL layer (DAOs, engine, migrations). Counts, lists and
  `validate_block_session` are pure queries over the state.
- Persistence failures. The model assumes every persistence call stores
  what it is given. The exercise DAO wired into the guarded service has no
  `update` method, and its `delete` takes an identifier rather than a
  record. Those mismatches belong to the persistence layer and are not
  modelled.
- Transactions. An operation returns a new state only on success. The
  per-row commits are modelled only where they matter: the intermediate
  states of the reindex loops (`ShiftLoops`, `BlockMoves`).
- Database-assigned keys. The new record's key is a parameter that the
  caller guarantees fresh (`FreshBlockId`, or an unused exercise key).
- The measured payload and the enumerations. They are opaque text that the
  engine never reads.
- The block service's `get_block` and `list_blocks_by_session`. They are
  plain reads with no guard and no ordering logic.
- GuardedExerciseService.ListBySession: returns the session's exercises as
  a set. The order by `position_in_block`, then `position`, comes from SQL
  and is not modelled.
- GuardedExerciseService.ListByBlock: returns the block's exercises as a
  set, without the SQL ordering.
- GuardedExerciseService.GetExercise: the lookup's "not found" answer after
  a passing check is not reachable in the model, because the check already
  failed with "Exercise not found".
- BlockMoves.UpdateBlockLeavesCollision: exhibits the collision in the
  state after the whole loop, before the block row is written. It does not
  pin it to the first commit that meets it.
- ShiftLoops.RunLoop: takes any visiting order that lists every member
  once. The source sorts by position with Python's stable sort. Only the
  safety lemmas use the sortedness (`Ascending`, `Descending`).
- The superseded `src/services/block_service.py` is not part of this model.
  It sets `position` with no reindexing.

## Findings

| source | as written | input that shows it | evidently intended | confidence | as-written member | corrected member |
|---|---|---|---|---|---|---|
| src/services/spe_services/exercise_service.py:62-93 | `create_exercise` reads the locals `position` and `position_in_block`, which it assigns only later in the same function, so Python raises `UnboundLocalError` once the session, ownership and block guards pass | the owner of session 1, which is empty, creates a free exercise with no positions | take both values from the request, as the keyword-argument version does (src/services/exercise_service.py:47-48), and append the exercise at 0 | high, not executed | GuardedExerciseService.CreateExerciseAsWritten | GuardedExerciseService.CreateExercise |
| src/services/spe_services/block_service.py:137-151 | `update_block` rewrites the shifted rows one by one, and the block store commits each rewrite (src/data/dao/block_dao.py:29-31). The moved block keeps its old `position` until after the loop, so the neighbour moved onto that position meets it under the `(session_id, position)` unique constraint (src/data/models.py:107) | session 1 with blocks 1 at 0 and 2 at 1; move block 1 to 1; block 2's commit would put both blocks at 0; the constraint refuses it, so `update_block` raises. The model's `UpdateBlock`, which assumes every write is stored, ends on the swap | park the moved block outside the domain before the loop, then place it at the target; every intermediate state stays collision-free and the end state is unchanged | medium, not executed | BlockMoves.UpdateBlockCollisionWitness | BlockMoves.ParkedUpdateBlock |
