/** The repository's service-level scenarios, replayed on the model.

Each lemma builds the small state a scenario describes and states the
positions it expects afterwards. The states here are complete (every
record the scenario names, and nothing else), so they also fix the
positions of the records a scenario leaves implicit.
 */
module Scenarios {
  import opened Outcomes
  import opened PositionIndex
  import opened Store
  import opened Reindex
  import BlockService
  import ES = ExerciseService

  function Squat(): Measures {
    Measures("air_squat", None, None, None, None, None)
  }

  function FreeAt(s: SessionId, p: int): Exercise {
    Exercise(s, None, Squat(), Some(p), None)
  }

  function InBlock(s: SessionId, b: BlockId, p: int): Exercise {
    Exercise(s, Some(b), Squat(), None, Some(p))
  }

  function PositionOnly(p: Option<int>, pib: Option<int>): ES.ExerciseUpdate {
    ES.ExerciseUpdate(None, None, None, None, None, None, p, pib)
  }

  /** A block inserted at 1 before a free exercise at 1 pushes it to 2;
      the block already at 0 stays. */
  lemma CreateBlockScenario()
    ensures var st := State(map[1 := Session(7)], map[1 := Block(1, "emom", 0, None, None)], map[2 := FreeAt(1, 1)]);
            var r := BlockService.CreateBlock(st, 1, "amrap", Some(1), None, None, 3);
            && r.Ok?
            && r.value.blocks[3] == Block(1, "amrap", 1, None, None)
            && r.value.blocks[1].position == 0
            && r.value.exercises[2].position == Some(2)
  {
    var st := State(map[1 := Session(7)], map[1 := Block(1, "emom", 0, None, None)], map[2 := FreeAt(1, 1)]);
    assert BlocksOf(st, 1) == {1};
    assert FreeOf(st, 1) == {2};
  }

  /** Moving block 1 from 0 to 1 swaps it with block 2; the free exercise
      at 2 is outside the moved range. */
  lemma UpdateBlockScenario()
    ensures var st := State(map[1 := Session(7)],
                            map[1 := Block(1, "emom", 0, None, None), 2 := Block(1, "amrap", 1, None, None)],
                            map[3 := FreeAt(1, 2)]);
            var r := BlockService.UpdateBlock(st, 1, BlockService.BlockUpdate(None, Some(1), None, None));
            && r.Ok?
            && r.value.blocks[1].position == 1
            && r.value.blocks[2].position == 0
            && r.value.exercises[3].position == Some(2)
  {
    var st := State(map[1 := Session(7)],
                    map[1 := Block(1, "emom", 0, None, None), 2 := Block(1, "amrap", 1, None, None)],
                    map[3 := FreeAt(1, 2)]);
    assert BlocksOf(st, 1) == {1, 2};
    assert FreeOf(st, 1) == {3};
  }

  /** Deleting the block at 1 pulls the block at 2 and the free exercise
      at 3 down by one. */
  lemma DeleteBlockScenario()
    ensures var st := State(map[1 := Session(7)],
                            map[1 := Block(1, "emom", 1, None, None), 2 := Block(1, "amrap", 2, None, None)],
                            map[3 := FreeAt(1, 3)]);
            var r := BlockService.DeleteBlock(st, 1);
            && r.Ok?
            && 1 !in r.value.blocks
            && r.value.blocks[2].position == 1
            && r.value.exercises[3].position == Some(2)
  {
  }

  /** An exercise added to an empty block without a position lands at 0
      in the block and has no session-level position. */
  lemma CreateInBlockScenario()
    ensures var st := State(map[1 := Session(7)], map[1 := Block(1, "emom", 0, None, None)], map[]);
            var r := ES.CreateExercise(st, ES.ExerciseCreate(Some(1), Some(1), Squat(), None, None), 2);
            && r.Ok?
            && r.value.exercises[2] == InBlock(1, 1, 0)
  {
    var st := State(map[1 := Session(7)], map[1 := Block(1, "emom", 0, None, None)], map[]);
    assert MembersOf(st, 1) == {};
  }

  /** Moving the free exercise at 0 to 2 pulls the free exercise at 1 and
      the block at 2 down by one. */
  lemma UpdateFreeScenario()
    ensures var st := State(map[1 := Session(7)],
                            map[3 := Block(1, "emom", 2, None, None)],
                            map[1 := FreeAt(1, 0), 2 := FreeAt(1, 1)]);
            var r := ES.UpdateExercise(st, 1, PositionOnly(Some(2), None), false);
            && r.Ok?
            && r.value.exercises[1].position == Some(2)
            && r.value.exercises[2].position == Some(0)
            && r.value.blocks[3].position == 1
  {
    var st := State(map[1 := Session(7)],
                    map[3 := Block(1, "emom", 2, None, None)],
                    map[1 := FreeAt(1, 0), 2 := FreeAt(1, 1)]);
    assert BlocksOf(st, 1) == {3};
    assert FreeOf(st, 1) == {1, 2};
  }

  /** Moving the exercise at 0 of a block to 1 swaps it with its sibling;
      nothing gains a session-level position. */
  lemma UpdateInBlockScenario()
    ensures var st := State(map[1 := Session(7)],
                            map[1 := Block(1, "emom", 0, None, None)],
                            map[1 := InBlock(1, 1, 0), 2 := InBlock(1, 1, 1)]);
            var r := ES.UpdateExercise(st, 1, PositionOnly(None, Some(1)), false);
            && r.Ok?
            && r.value.exercises[1] == InBlock(1, 1, 1)
            && r.value.exercises[2] == InBlock(1, 1, 0)
  {
    var st := State(map[1 := Session(7)],
                    map[1 := Block(1, "emom", 0, None, None)],
                    map[1 := InBlock(1, 1, 0), 2 := InBlock(1, 1, 1)]);
    assert MembersOf(st, 1) == {1, 2};
  }

  /** Deleting the free exercise at 1 pulls the free exercise at 2 and the
      block at 3 down by one. */
  lemma DeleteFreeScenario()
    ensures var st := State(map[1 := Session(7)],
                            map[3 := Block(1, "emom", 3, None, None)],
                            map[1 := FreeAt(1, 1), 2 := FreeAt(1, 2)]);
            var r := ES.DeleteExercise(st, 1);
            && r.Ok?
            && r.value.exercises.Keys == {2}
            && r.value.exercises[2].position == Some(1)
            && r.value.blocks[3].position == 2
  {
  }

  /** Deleting the exercise at 0 of block 1 pulls its sibling down; the
      exercise of block 2 and the free exercise keep their positions. */
  lemma DeleteInBlockScenario()
    ensures var st := State(map[1 := Session(7)],
                            map[1 := Block(1, "emom", 1, None, None), 2 := Block(1, "amrap", 2, None, None)],
                            map[1 := InBlock(1, 1, 0), 2 := InBlock(1, 1, 1), 3 := InBlock(1, 2, 0), 4 := FreeAt(1, 0)]);
            var r := ES.DeleteExercise(st, 1);
            && r.Ok?
            && r.value.exercises[2] == InBlock(1, 1, 0)
            && r.value.exercises[3] == InBlock(1, 2, 0)
            && r.value.exercises[4] == FreeAt(1, 0)
  {
  }
}
