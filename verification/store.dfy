/** The records of the training tracker and the read-only queries over them.

The shapes follow the domain entities of the repository: a session has an
owner; a block belongs to a session and has a session-level `position`; an
exercise belongs to a session, optionally to a block, and carries an optional
session-level `position` and an optional `position_in_block`. Enumerations and
floating-point measurements are opaque text that the ordering engine never
reads. Identifiers are the database's integer keys.
 */
module Store {
  import opened Outcomes
  import opened PositionIndex

  type UserId = nat
  type SessionId = nat
  type BlockId = nat
  type ExerciseId = nat

  /** An enumeration value or a measurement the ordering engine never inspects. */
  type Opaque = string

  datatype Session = Session(owner: UserId)

  datatype Block = Block(
    session: SessionId,
    kind: Opaque,
    position: int,
    duration: Option<Opaque>,
    notes: Option<string>)

  /** The measured payload of an exercise. */
  datatype Measures = Measures(
    kind: Opaque,
    weight: Option<Opaque>,
    repetitions: Option<int>,
    duration: Option<Opaque>,
    distance: Option<Opaque>,
    notes: Option<string>)

  datatype Exercise = Exercise(
    session: SessionId,
    block: Option<BlockId>,
    measures: Measures,
    position: Option<int>,
    positionInBlock: Option<int>)

  datatype State = State(
    sessions: map<SessionId, Session>,
    blocks: map<BlockId, Block>,
    exercises: map<ExerciseId, Exercise>)

  /** Python's `p or 0`: a missing position reads as 0. */
  function OrZero(p: Option<int>): int {
    p.GetOr(0)
  }

  /** A member of a session-level ordering domain: a block or a free exercise. */
  datatype Item = BlockItem(block: BlockId) | FreeItem(exercise: ExerciseId)

  // ---------------------------------------------------------------------
  // The persistence queries, as pure functions of the state
  // ---------------------------------------------------------------------

  function BlocksOf(st: State, s: SessionId): set<BlockId> {
    set b | b in st.blocks && st.blocks[b].session == s
  }

  /** The exercises of `s` whose `block_id` is None. */
  function FreeOf(st: State, s: SessionId): set<ExerciseId> {
    set e | e in st.exercises && st.exercises[e].session == s && st.exercises[e].block.None?
  }

  /** The exercises whose `block_id` is `b`, whatever their session. */
  function MembersOf(st: State, b: BlockId): set<ExerciseId> {
    set e | e in st.exercises && st.exercises[e].block == Some(b)
  }

  function CountBySession(st: State, s: SessionId): nat {
    |BlocksOf(st, s)|
  }

  function CountFreeBySession(st: State, s: SessionId): nat {
    |FreeOf(st, s)|
  }

  function CountByBlock(st: State, b: BlockId): nat {
    |MembersOf(st, b)|
  }

  /** `count_by_session + count_free_by_session`: the size of the session-level domain. */
  function SessionSize(st: State, s: SessionId): nat {
    CountBySession(st, s) + CountFreeBySession(st, s)
  }

  predicate ValidateBlockSession(st: State, b: BlockId, s: SessionId) {
    b in st.blocks && st.blocks[b].session == s
  }

  // ---------------------------------------------------------------------
  // The two kinds of ordering domain
  // ---------------------------------------------------------------------

  predicate OnSessionAxis(st: State, s: SessionId, i: Item) {
    match i
    case BlockItem(b) => b in st.blocks && st.blocks[b].session == s
    case FreeItem(e) =>
      e in st.exercises && st.exercises[e].session == s && st.exercises[e].block.None?
  }

  function SessionItems(st: State, s: SessionId): (r: set<Item>)
    ensures forall i :: i in r <==> OnSessionAxis(st, s, i)
  {
    (set b | b in BlocksOf(st, s) :: BlockItem(b)) + (set e | e in FreeOf(st, s) :: FreeItem(e))
  }

  function PositionOf(st: State, i: Item): int {
    match i
    case BlockItem(b) => if b in st.blocks then st.blocks[b].position else 0
    case FreeItem(e) => if e in st.exercises then OrZero(st.exercises[e].position) else 0
  }

  /** The session-level domain of `s`: its blocks and free exercises on one axis. */
  function SessionAxis(st: State, s: SessionId): map<Item, int> {
    map i | i in SessionItems(st, s) :: PositionOf(st, i)
  }

  /** The block-level domain of `b`: its exercises on `position_in_block`. */
  function BlockAxis(st: State, b: BlockId): map<ExerciseId, int> {
    map e | e in MembersOf(st, b) :: OrZero(st.exercises[e].positionInBlock)
  }

  lemma {:induction false} BlockItemsSize(bs: set<BlockId>)
    ensures |set b | b in bs :: BlockItem(b)| == |bs|
    decreases bs
  {
    if bs != {} {
      var b :| b in bs;
      BlockItemsSize(bs - {b});
      assert (set x | x in bs :: BlockItem(x)) == (set x | x in bs - {b} :: BlockItem(x)) + {BlockItem(b)};
    }
  }

  lemma {:induction false} FreeItemsSize(es: set<ExerciseId>)
    ensures |set e | e in es :: FreeItem(e)| == |es|
    decreases es
  {
    if es != {} {
      var e :| e in es;
      FreeItemsSize(es - {e});
      assert (set x | x in es :: FreeItem(x)) == (set x | x in es - {e} :: FreeItem(x)) + {FreeItem(e)};
    }
  }

  /** The domain size the composers compute, `count_by_session + count_free_by_session`,
      is the number of members of the session-level domain. */
  lemma SessionAxisSize(st: State, s: SessionId)
    ensures |SessionAxis(st, s)| == SessionSize(st, s)
  {
    var bi := set b | b in BlocksOf(st, s) :: BlockItem(b);
    var fi := set e | e in FreeOf(st, s) :: FreeItem(e);
    BlockItemsSize(BlocksOf(st, s));
    FreeItemsSize(FreeOf(st, s));
    DisjointUnionSize(BlocksOf(st, s), FreeOf(st, s));
    assert SessionAxis(st, s).Keys == SessionItems(st, s);
  }

  lemma DisjointUnionSize(bs: set<BlockId>, es: set<ExerciseId>)
    ensures var bi := set b | b in bs :: BlockItem(b);
            var fi := set e | e in es :: FreeItem(e);
            |bi + fi| == |bi| + |fi|
  {
    var bi := set b | b in bs :: BlockItem(b);
    var fi := set e | e in es :: FreeItem(e);
    forall i | i in bi
      ensures i !in fi
    {
    }
    assert bi * fi == {};
  }

  /** `count_by_block` is the size of the block-level domain. */
  lemma BlockAxisSize(st: State, b: BlockId)
    ensures |BlockAxis(st, b)| == CountByBlock(st, b)
  {
    assert BlockAxis(st, b).Keys == MembersOf(st, b);
  }

  // ---------------------------------------------------------------------
  // Well-formedness
  // ---------------------------------------------------------------------

  /** An in-block exercise has `position_in_block` and no `position`; a free
      exercise has `position`. (A free exercise may still carry a stray
      `position_in_block`: the create path keeps whatever the caller sent.) */
  predicate Exclusive(e: Exercise) {
    && (e.block.Some? <==> e.position.None?)
    && (e.block.Some? ==> e.positionInBlock.Some?)
  }

  ghost predicate ExclusiveAll(st: State) {
    forall e :: e in st.exercises ==> Exclusive(st.exercises[e])
  }

  /** Block references: identifier 0 is never a block (the keys start at 1);
      an exercise of a live block shares its session; the exercises that name
      the same block (live or deleted) share one session. */
  ghost predicate Referential(st: State) {
    && 0 !in st.blocks
    && (forall e :: e in st.exercises ==> st.exercises[e].block != Some(0))
    && (forall e :: e in st.exercises && st.exercises[e].block.Some? && st.exercises[e].block.value in st.blocks
          ==> st.blocks[st.exercises[e].block.value].session == st.exercises[e].session)
    && (forall e1, e2 :: e1 in st.exercises && e2 in st.exercises && st.exercises[e1].block.Some?
          && st.exercises[e1].block == st.exercises[e2].block
          ==> st.exercises[e1].session == st.exercises[e2].session)
  }

  ghost predicate AllDense(st: State) {
    && (forall s :: Dense(SessionAxis(st, s)))
    && (forall b :: Dense(BlockAxis(st, b)))
  }

  ghost predicate WellFormed(st: State) {
    ExclusiveAll(st) && Referential(st) && AllDense(st)
  }

  /** An identifier the database may hand out for a new block: never 0, not in
      use, and not named by any exercise left behind by a deleted block. */
  predicate FreshBlockId(st: State, b: BlockId) {
    && b != 0
    && b !in st.blocks
    && forall e :: e in st.exercises ==> st.exercises[e].block != Some(b)
  }

  lemma EmptyIsWellFormed(sessions: map<SessionId, Session>)
    ensures WellFormed(State(sessions, map[], map[]))
  {
    var st := State(sessions, map[], map[]);
    forall s
      ensures Dense(SessionAxis(st, s))
    {
      assert SessionAxis(st, s) == map[];
    }
    forall b
      ensures Dense(BlockAxis(st, b))
    {
      assert BlockAxis(st, b) == map[];
    }
  }

  /** In a well-formed state the two tests the source uses for "free exercise"
      (`block_id is None` and `position is not None`) agree. */
  lemma FreeTestsAgree(st: State, e: ExerciseId)
    requires ExclusiveAll(st)
    requires e in st.exercises
    ensures st.exercises[e].block.None? <==> st.exercises[e].position.Some?
  {
  }
}
