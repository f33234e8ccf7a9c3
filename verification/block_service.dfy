/** The block composer: create, update and delete a block over the
session-level domain of its session (its blocks and its free exercises on one
`position` axis).

Create inserts, update moves, delete removes; every error is detected before
any sibling is shifted. Delete does not touch the block's exercises: they stay
in the store with their `block_id` and `position_in_block`.
 */
module BlockService {
  import opened Outcomes
  import opened PositionIndex
  import opened Store
  import opened Reindex

  /** The fields `update_block` accepts; `None` leaves a field as it is. */
  datatype BlockUpdate = BlockUpdate(
    kind: Option<Opaque>,
    position: Option<int>,
    duration: Option<Opaque>,
    notes: Option<string>)

  /** `create_block`: append when no position is given, otherwise check it
      against `[0, total]` and raise every sibling at or above it. The new
      block gets the key `newId` from the database. */
  function CreateBlock(st: State, s: SessionId, kind: Opaque, position: Option<int>,
                       duration: Option<Opaque>, notes: Option<string>, newId: BlockId): (r: Result<State>)
    ensures r == Err(SessionNotFound) <==> s !in st.sessions
    ensures r == Err(InvalidBlockPosition) <==>
              s in st.sessions && position.Some? && !(0 <= position.value <= SessionSize(st, s))
    ensures r.Err? ==> r == Err(SessionNotFound) || r == Err(InvalidBlockPosition)
    ensures r.Ok? ==> && r.value.blocks.Keys == st.blocks.Keys + {newId}
                      && r.value.blocks[newId] == Block(s, kind, position.GetOr(SessionSize(st, s)), duration, notes)
                      && r.value.exercises.Keys == st.exercises.Keys
                      && r.value.sessions == st.sessions
  {
    if s !in st.sessions then Err(SessionNotFound)
    else
      var total := SessionSize(st, s);
      if position.None? then
        Ok(st.(blocks := st.blocks[newId := Block(s, kind, total, duration, notes)]))
      else if position.value < 0 || position.value > total then Err(InvalidBlockPosition)
      else
        var st1 := ShiftSession(st, s, ByBlockId, InsertAt(position.value));
        Ok(st1.(blocks := st1.blocks[newId := Block(s, kind, position.value, duration, notes)]))
  }

  /** `update_block`: a new position different from the current one must lie
      in `[0, total-1]` and moves the block there; the other fields are
      overwritten only when supplied. */
  function UpdateBlock(st: State, id: BlockId, upd: BlockUpdate): (r: Result<State>)
    ensures r == Err(BlockNotFound) <==> id !in st.blocks
    ensures r == Err(InvalidBlockPosition) <==>
              && id in st.blocks
              && upd.position.Some? && upd.position.value != st.blocks[id].position
              && !(0 <= upd.position.value <= SessionSize(st, st.blocks[id].session) - 1)
    ensures r.Err? ==> r == Err(BlockNotFound) || r == Err(InvalidBlockPosition)
    ensures r.Ok? ==>
              var bl := st.blocks[id];
              && r.value.blocks.Keys == st.blocks.Keys
              && r.value.exercises.Keys == st.exercises.Keys
              && r.value.blocks[id] == Block(bl.session, upd.kind.GetOr(bl.kind), upd.position.GetOr(bl.position),
                                             upd.duration.Or(bl.duration), upd.notes.Or(bl.notes))
  {
    if id !in st.blocks then Err(BlockNotFound)
    else
      var bl := st.blocks[id];
      var s := bl.session;
      var moving := upd.position.Some? && upd.position.value != bl.position;
      if moving && (upd.position.value < 0 || upd.position.value > SessionSize(st, s) - 1) then
        Err(InvalidBlockPosition)
      else
        var st1 := if moving then ShiftSession(st, s, ByPosition, MoveTo(bl.position, upd.position.value)) else st;
        var updated := bl.(kind := upd.kind.GetOr(bl.kind),
                           position := upd.position.GetOr(bl.position),
                           duration := upd.duration.Or(bl.duration),
                           notes := upd.notes.Or(bl.notes));
        Ok(st1.(blocks := st1.blocks[id := updated]))
  }

  /** `delete_block`: drop the block, then lower every sibling above its
      position (the `_shift_positions` helper). */
  function DeleteBlock(st: State, id: BlockId): (r: Result<State>)
    ensures r.Err? <==> id !in st.blocks
    ensures r.Err? ==> r.error == BlockNotFound
    ensures r.Ok? ==> && r.value.blocks.Keys == st.blocks.Keys - {id}
                      && r.value.exercises.Keys == st.exercises.Keys
                      && (forall e :: e in st.exercises ==> r.value.exercises[e].block == st.exercises[e].block)
  {
    if id !in st.blocks then Err(BlockNotFound)
    else
      var bl := st.blocks[id];
      var st1 := st.(blocks := st.blocks - {id});
      Ok(ShiftSession(st1, bl.session, ByBlockId, RemoveAt(bl.position)))
  }

  // ---------------------------------------------------------------------
  // Effect on the ordering domains
  // ---------------------------------------------------------------------

  /** Adding a block under a newId key keeps every exercise's references
      intact. */
  lemma PutFreshBlockReferential(st: State, id: BlockId, bl: Block)
    requires Referential(st)
    requires FreshBlockId(st, id)
    ensures Referential(st.(blocks := st.blocks[id := bl]))
  {
  }

  /** A create inserts the new block into its session's domain at the
      requested position (or at the end), keeps the state well formed, and
      changes no other domain. */
  lemma CreateBlockKeepsDensity(st: State, s: SessionId, kind: Opaque, position: Option<int>,
                                duration: Option<Opaque>, notes: Option<string>, newId: BlockId)
    requires WellFormed(st)
    requires FreshBlockId(st, newId)
    ensures var r := CreateBlock(st, s, kind, position, duration, notes, newId);
            r.Ok? ==>
              && WellFormed(r.value)
              && SessionAxis(r.value, s)
                   == Insert(SessionAxis(st, s), BlockItem(newId), position.GetOr(SessionSize(st, s)))
              && OnlySessionAxisChanged(st, r.value, s)
  {
    var r := CreateBlock(st, s, kind, position, duration, notes, newId);
    if r.Ok? {
      var d := SessionAxis(st, s);
      var k := position.GetOr(SessionSize(st, s));
      var bl := Block(s, kind, k, duration, notes);
      SessionAxisSize(st, s);
      var st1 := if position.None? then st else ShiftSession(st, s, ByBlockId, InsertAt(k));
      assert r.value == st1.(blocks := st1.blocks[newId := bl]);
      if position.None? {
        AppendShiftsNothing(d);
      } else {
        ShiftSessionShape(st, s, ByBlockId, InsertAt(k));
        ShiftSessionOwnAxis(st, s, ByBlockId, InsertAt(k));
        ShiftSessionFrame(st, s, ByBlockId, InsertAt(k));
        SameShapeSameMembers(st, st1);
      }
      assert SessionAxis(st1, s) == ShiftAll(d, InsertAt(k));
      assert OnlySessionAxisChanged(st, st1, s);
      PutBlockEffect(st1, newId, bl);
      assert BlockItem(newId) !in d;
      InsertKeepsDense(d, BlockItem(newId), k);
      PutFreshBlockReferential(st1, newId, bl);
      DenseAfterSessionChange(st, r.value, s);
    }
  }

  /** Rewriting a live block without changing its session keeps every
      exercise's references intact. */
  lemma PutSameSessionBlockReferential(st: State, id: BlockId, bl: Block)
    requires Referential(st)
    requires id in st.blocks && st.blocks[id].session == bl.session
    ensures Referential(st.(blocks := st.blocks[id := bl]))
  {
  }

  /** The pass `update_block` runs before storing the block: the session's
      domain is shifted by the move rule, the block itself staying where it
      was, and the records keep their shape. */
  lemma UpdateBlockShift(st: State, id: BlockId, to: int)
    requires WellFormed(st)
    requires id in st.blocks
    ensures var s := st.blocks[id].session;
            var st1 := ShiftSession(st, s, ByPosition, MoveTo(st.blocks[id].position, to));
            && ExclusiveAll(st1)
            && Referential(st1)
            && st1.blocks[id] == st.blocks[id]
            && SessionAxis(st1, s) == ShiftAll(SessionAxis(st, s), MoveTo(st.blocks[id].position, to))
            && OnlySessionAxisChanged(st, st1, s)
  {
    var s := st.blocks[id].session;
    var op := MoveTo(st.blocks[id].position, to);
    var st1 := ShiftSession(st, s, ByPosition, op);
    ShiftSessionShape(st, s, ByPosition, op);
    ShiftSessionOwnAxis(st, s, ByPosition, op);
    ShiftSessionFrame(st, s, ByPosition, op);
    SameShapeSameMembers(st, st1);
  }

  /** The reindex part of an update: the block's session domain becomes the
      move of the block to its new position (to itself when none is given),
      and nothing else changes. */
  lemma UpdateBlockEffect(st: State, id: BlockId, upd: BlockUpdate)
    requires WellFormed(st)
    requires UpdateBlock(st, id, upd).Ok?
    ensures var r := UpdateBlock(st, id, upd);
            var s := st.blocks[id].session;
            && ExclusiveAll(r.value)
            && Referential(r.value)
            && SessionAxis(r.value, s) == Move(SessionAxis(st, s), BlockItem(id), upd.position.GetOr(st.blocks[id].position))
            && OnlySessionAxisChanged(st, r.value, s)
  {
    var r := UpdateBlock(st, id, upd);
    var bl := st.blocks[id];
    var s := bl.session;
    var d := SessionAxis(st, s);
    var to := upd.position.GetOr(bl.position);
    var op := MoveTo(bl.position, to);
    var moving := upd.position.Some? && upd.position.value != bl.position;
    var st1 := if moving then ShiftSession(st, s, ByPosition, op) else st;
    var updated := r.value.blocks[id];
    assert r.value == st1.(blocks := st1.blocks[id := updated]);
    if moving {
      UpdateBlockShift(st, id, to);
    } else {
      assert ShiftAll(d, op) == d;
    }
    assert SessionAxis(st1, s) == ShiftAll(d, op);
    PutBlockEffect(st1, id, updated);
    PutSameSessionBlockReferential(st1, id, updated);
  }

  /** An update with a new position moves the block within its session's
      domain, keeps the state well formed, and changes no other domain; an
      update without one changes no domain at all. */
  lemma UpdateBlockKeepsDensity(st: State, id: BlockId, upd: BlockUpdate)
    requires WellFormed(st)
    ensures var r := UpdateBlock(st, id, upd);
            r.Ok? ==>
              var s := st.blocks[id].session;
              && WellFormed(r.value)
              && SessionAxis(r.value, s) == Move(SessionAxis(st, s), BlockItem(id), upd.position.GetOr(st.blocks[id].position))
              && OnlySessionAxisChanged(st, r.value, s)
  {
    var r := UpdateBlock(st, id, upd);
    if r.Ok? {
      var s := st.blocks[id].session;
      var d := SessionAxis(st, s);
      UpdateBlockEffect(st, id, upd);
      SessionAxisSize(st, s);
      MoveKeepsDense(d, BlockItem(id), upd.position.GetOr(st.blocks[id].position));
      DenseAfterSessionChange(st, r.value, s);
    }
  }

  /** The reindex part of a delete: the block leaves its session's domain,
      the siblings above close the gap, and nothing else changes. */
  lemma DeleteBlockEffect(st: State, id: BlockId)
    requires WellFormed(st)
    requires id in st.blocks
    ensures var r := DeleteBlock(st, id);
            var s := st.blocks[id].session;
            && ExclusiveAll(r.value)
            && Referential(r.value)
            && SessionAxis(r.value, s) == Remove(SessionAxis(st, s), BlockItem(id))
            && OnlySessionAxisChanged(st, r.value, s)
  {
    var bl := st.blocks[id];
    var s := bl.session;
    var op := RemoveAt(bl.position);
    var st1 := st.(blocks := st.blocks - {id});
    DropBlockRecords(st, id);
    DropBlockAxes(st, id);
    ShiftSessionEffect(st1, s, ByBlockId, op);
    OnlySessionAxisChangedTrans(st, st1, DeleteBlock(st, id).value, s);
  }

  /** Dropping the block row keeps the exercise invariants: no cascade, and
      every remaining block reference still agrees on sessions. */
  lemma DropBlockRecords(st: State, id: BlockId)
    requires ExclusiveAll(st) && Referential(st)
    ensures ExclusiveAll(st.(blocks := st.blocks - {id}))
    ensures Referential(st.(blocks := st.blocks - {id}))
  {
  }

  /** Dropping the block row takes it out of its session's domain only. */
  lemma DropBlockAxes(st: State, id: BlockId)
    requires id in st.blocks
    ensures var st1 := st.(blocks := st.blocks - {id});
            var s := st.blocks[id].session;
            && SessionAxis(st1, s) == SessionAxis(st, s) - {BlockItem(id)}
            && OnlySessionAxisChanged(st, st1, s)
  {
    var st1 := st.(blocks := st.blocks - {id});
    var s := st.blocks[id].session;
    DropBlockEffect(st, id);
    forall s': SessionId | s' != s
      ensures SessionAxis(st1, s') == SessionAxis(st, s')
    {
      assert BlockItem(id) !in SessionAxis(st, s');
    }
  }

  /** A delete removes the block from its session's domain, keeps the state
      well formed, and changes no other domain; in particular the block-level
      domain of the deleted block (its exercises) stays as it was. */
  lemma DeleteBlockKeepsDensity(st: State, id: BlockId)
    requires WellFormed(st)
    ensures var r := DeleteBlock(st, id);
            r.Ok? ==>
              var s := st.blocks[id].session;
              && WellFormed(r.value)
              && SessionAxis(r.value, s) == Remove(SessionAxis(st, s), BlockItem(id))
              && OnlySessionAxisChanged(st, r.value, s)
  {
    var r := DeleteBlock(st, id);
    if r.Ok? {
      var s := st.blocks[id].session;
      DeleteBlockEffect(st, id);
      RemoveKeepsDense(SessionAxis(st, s), BlockItem(id));
      DenseAfterSessionChange(st, r.value, s);
    }
  }
}
