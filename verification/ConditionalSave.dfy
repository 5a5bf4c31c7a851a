/** One fenced save as a program over SQL statements: the steps of `runConditionalSave`, what each
    of them decides, and the loop itself run against a table other writers may change at any time. */
module ConditionalSave {
  import opened Wrappers
  import opened Fence
  import opened SaveStatements

  const MAX_ROUNDS: nat := 2

  /** How a call ends. Failed stands for a statement error whose effect the caller cannot know. */
  datatype Reply =
    | SaveUpdated
    | SaveInserted
    | SaveUnchanged(stored: seq<nat>)
    | SaveRejected(stored: seq<nat>)
    | DuplicateKey
    | Disappeared
    | SchemaDrift
    | Race(stored: seq<nat>)
    | Mismatch(stored: seq<nat>)
    | Failed
  {
    /** One of the four outcomes that come without an error. */
    predicate Settled() { SaveUpdated? || SaveInserted? || SaveUnchanged? || SaveRejected? }
  }

  /** Variables that live across statements: the round, whether an INSERT hit 1062, the state of the
      last failed row comparison, and the fence read last. */
  datatype Locals = Locals(round: nat, duplicate: bool, compared: Option<RowState>, last: seq<nat>)

  /** Where a call stands: the statement it sends next, or how it ended. */
  datatype Pc =
    | AtUpdate(v: Locals)
    | AtRead(v: Locals)
    | AtInsert(v: Locals)
    | AtReread(v: Locals)
    | AtCompare(v: Locals, state: RowState)
    | Finished(reply: Reply)

  const START := AtUpdate(Locals(1, false, None, []))

  function NextRound(v: Locals): Pc {
    if v.round >= MAX_ROUNDS then Finished(Race(v.last)) else AtUpdate(v.(round := v.round + 1))
  }

  /** What follows once the row has been seen to exist. */
  function Decide(p: Plan, v: Locals, state: RowState): Pc {
    var v' := v.(last := state.stored);
    if p.Fenced() && !p.Holds(state.stored) then Finished(SaveRejected(state.stored))
    else if p.Fenced() && state.stored != p.target then NextRound(v'.(compared := None))
    else AtCompare(v', state)
  }

  function AfterUpdate(v: Locals, r: ExecResult): Pc {
    if r.Duplicate? then Finished(DuplicateKey)
    else if r.rows > 0 then Finished(SaveUpdated) else AtRead(v)
  }

  function AfterRead(p: Plan, v: Locals, seen: StateRead): Pc {
    if seen.NullFence? then Finished(SchemaDrift)
    else if seen.state.exists_ then Decide(p, v, seen.state)
    else if v.duplicate then Finished(Disappeared) else AtInsert(v)
  }

  function AfterInsert(v: Locals, r: ExecResult): Pc {
    if r.Duplicate? then AtReread(v.(duplicate := true)) else Finished(SaveInserted)
  }

  function AfterReread(p: Plan, v: Locals, seen: StateRead): Pc {
    if seen.NullFence? then Finished(SchemaDrift)
    else if seen.state.exists_ then Decide(p, v, seen.state) else Finished(DuplicateKey)
  }

  function AfterCompare(v: Locals, state: RowState, matches: bool): Pc {
    if matches then Finished(SaveUnchanged(state.stored))
    else if v.compared == Some(state) then Finished(Mismatch(v.last))
    else NextRound(v.(compared := Some(state)))
  }

  /** One statement, executed atomically on the table it finds. */
  function Step(e: Engine, p: Plan, pc: Pc, t: Table): (Table, Pc)
    requires !pc.Finished? && |p.fence| == |p.target|
  {
    match pc
    case AtUpdate(v) =>
      var (t', r) := ExecUpdate(e, p, t);
      (t', AfterUpdate(v, r))
    case AtRead(v) => (t, AfterRead(p, v, ReadState(p, t)))
    case AtInsert(v) =>
      var (t', r) := ExecInsert(e, p, t);
      (t', AfterInsert(v, r))
    case AtReread(v) => (t, AfterReread(p, v, ReadState(p, t)))
    case AtCompare(v, state) => (t, AfterCompare(v, state, RowMatches(e, p, t)))
  }

  // ---------------------------------------------------------------- what every point remembers

  /** Facts a call carries from statement to statement, whatever the other writers do. */
  predicate Remembers(p: Plan, pc: Pc)
    requires |p.fence| == |p.target|
  {
    match pc
    case AtCompare(v, state) =>
      && 1 <= v.round <= MAX_ROUNDS && state.exists_ && v.last == state.stored
      && (p.Fenced() ==> p.allowEqual && state.stored == p.target)
      && (!p.Fenced() ==> state.stored == [])
      && (v.compared.Some? ==> v.round > 1)
    case Finished(reply) =>
      && (reply.SaveRejected? ==> p.Fenced() && |reply.stored| == |p.fence| && !p.Holds(reply.stored))
      && (reply.SaveUnchanged? ==> if p.Fenced() then p.allowEqual && reply.stored == p.target else reply.stored == [])
      && (reply.Mismatch? ==> if p.Fenced() then p.allowEqual && reply.stored == p.target else reply.stored == [])
    case _ =>
      1 <= pc.v.round <= MAX_ROUNDS && (pc.v.compared.Some? ==> pc.v.round > 1)
  }

  lemma StepRemembers(e: Engine, p: Plan, pc: Pc, t: Table)
    requires ValidPlan(p) && !pc.Finished? && Remembers(p, pc)
    ensures Remembers(p, Step(e, p, pc, t).1)
  {
    hide AlreadyStored, Updated, Fresh, Clashes, RowMatches, Admits;
    CompareEqual(p.target);
  }

  lemma CompareEqual(target: seq<nat>)
    ensures Compare(target, target) == 0
  {
    CompareZero(target, target);
  }

  // ---------------------------------------------------------------- statements left

  /** How many statements a call can still send: three per round, and one INSERT with its re-read. */
  function Fuel(pc: Pc): int {
    match pc
    case AtUpdate(v) => 3 * (MAX_ROUNDS + 1 - v.round) + (if v.duplicate then 0 else 2)
    case AtRead(v) => 3 * (MAX_ROUNDS + 1 - v.round) + (if v.duplicate then -1 else 1)
    case AtInsert(v) => 3 * (MAX_ROUNDS + 1 - v.round)
    case AtReread(v) => 3 * (MAX_ROUNDS + 1 - v.round) - 1
    case AtCompare(v, _) => 3 * (MAX_ROUNDS + 1 - v.round) + (if v.duplicate then -2 else 0)
    case Finished(_) => 0
  }

  /** INSERT is only ever the first one of its call, and its re-read comes after a 1062. */
  predicate OnTrack(pc: Pc) {
    && (pc.AtInsert? ==> !pc.v.duplicate)
    && (pc.AtReread? ==> pc.v.duplicate)
    && (!pc.Finished? ==> 1 <= pc.v.round <= MAX_ROUNDS)
  }

  lemma StepBurnsFuel(e: Engine, p: Plan, pc: Pc, t: Table)
    requires |p.fence| == |p.target| && !pc.Finished? && OnTrack(pc)
    ensures OnTrack(Step(e, p, pc, t).1)
    ensures 0 <= Fuel(Step(e, p, pc, t).1) < Fuel(pc)
  {
  }

  // ---------------------------------------------------------------- one session running the loop

  /** The steps of a call over the tables its statements found, one after the other. */
  ghost function Replay(e: Engine, p: Plan, pc: Pc, found: seq<Table>): Pc
    requires |p.fence| == |p.target|
    decreases |found|
  {
    if found == [] || pc.Finished? then pc
    else Replay(e, p, Step(e, p, pc, found[0]).1, found[1..])
  }

  /** However the table changes in between, a call sends at most eight statements. */
  lemma {:induction false} StatementsBounded(e: Engine, p: Plan, pc: Pc, found: seq<Table>, left: seq<Table>)
    requires |p.fence| == |p.target| && OnTrack(pc)
    requires Leaves(e, p, pc, found, left)
    ensures |found| <= Fuel(pc)
    decreases |found|
  {
    if found != [] {
      StepBurnsFuel(e, p, pc, found[0]);
      StatementsBounded(e, p, Step(e, p, pc, found[0]).1, found[1..], left[1..]);
    } else if !pc.Finished? {
      assert Fuel(pc) >= 0;
    }
  }

  /** The table each of those statements left behind. */
  ghost predicate Leaves(e: Engine, p: Plan, pc: Pc, found: seq<Table>, left: seq<Table>)
    requires |p.fence| == |p.target|
    decreases |found|
  {
    if found == [] then left == []
    else
      && !pc.Finished? && |left| == |found|
      && left[0] == Step(e, p, pc, found[0]).0
      && Leaves(e, p, Step(e, p, pc, found[0]).1, found[1..], left[1..])
  }

  lemma {:induction false} ReplaySnoc(e: Engine, p: Plan, pc: Pc, found: seq<Table>, left: seq<Table>, t: Table)
    requires |p.fence| == |p.target|
    requires Leaves(e, p, pc, found, left)
    requires !Replay(e, p, pc, found).Finished?
    ensures var last := Step(e, p, Replay(e, p, pc, found), t);
      && Replay(e, p, pc, found + [t]) == last.1
      && Leaves(e, p, pc, found + [t], left + [last.0])
    decreases |found|
  {
    if found == [] {
      assert (found + [t])[1..] == [];
      var next := Step(e, p, pc, t);
      assert (left + [next.0])[1..] == [];
      assert Replay(e, p, next.1, []) == next.1;
    } else {
      assert (found + [t])[1..] == found[1..] + [t];
      var pc' := Step(e, p, pc, found[0]).1;
      var last := Step(e, p, Replay(e, p, pc, found), t);
      assert (left + [last.0])[1..] == left[1..] + [last.0];
      ReplaySnoc(e, p, pc', found[1..], left[1..], t);
    }
  }

  lemma NothingSent(e: Engine, p: Plan)
    requires |p.fence| == |p.target|
    ensures Leaves(e, p, START, [], []) && Replay(e, p, START, []) == START
  {
  }

  /** A connection to the table. Before every statement the other writers may have changed it. */
  class Session {
    const engine: Engine
    var table: Table
    ghost var found: seq<Table>
    ghost var left: seq<Table>

    constructor (engine: Engine, table: Table)
      ensures this.engine == engine && this.table == table && found == left == []
    {
      this.engine, this.table := engine, table;
      found, left := [], [];
    }

    /** Any number of other writers' statements. */
    method Others()
      modifies this`table
    {
      table := *;
    }

    /** Where a call that has sent the statements so far stands. */
    ghost predicate On(p: Plan, pc: Pc)
      requires |p.fence| == |p.target|
      reads this
    {
      && Leaves(engine, p, START, found, left)
      && Replay(engine, p, START, found) == pc
    }

    method Update(p: Plan, ghost v: Locals) returns (r: ExecResult)
      requires |p.fence| == |p.target| && On(p, AtUpdate(v))
      modifies this
      ensures On(p, AfterUpdate(v, r))
    {
      Others();
      var (t, result) := ExecUpdate(engine, p, table);
      ReplaySnoc(engine, p, START, found, left, table);
      found, left := found + [table], left + [t];
      table, r := t, result;
    }

    method Insert(p: Plan, ghost v: Locals) returns (r: ExecResult)
      requires |p.fence| == |p.target| && On(p, AtInsert(v))
      modifies this
      ensures On(p, AfterInsert(v, r))
    {
      Others();
      var (t, result) := ExecInsert(engine, p, table);
      ReplaySnoc(engine, p, START, found, left, table);
      found, left := found + [table], left + [t];
      table, r := t, result;
    }

    method Read(p: Plan, ghost pc: Pc) returns (r: StateRead)
      requires |p.fence| == |p.target| && On(p, pc) && (pc.AtRead? || pc.AtReread?)
      modifies this
      ensures On(p, if pc.AtRead? then AfterRead(p, pc.v, r) else AfterReread(p, pc.v, r))
    {
      Others();
      ReplaySnoc(engine, p, START, found, left, table);
      found, left := found + [table], left + [table];
      r := ReadState(p, table);
    }

    method Matches(p: Plan, ghost v: Locals, ghost state: RowState) returns (r: bool)
      requires |p.fence| == |p.target| && On(p, AtCompare(v, state))
      modifies this
      ensures On(p, AfterCompare(v, state, r))
    {
      Others();
      ReplaySnoc(engine, p, START, found, left, table);
      found, left := found + [table], left + [table];
      r := RowMatches(engine, p, table);
    }

    /** The reply and every table a call leaves are those of the step program on the tables it found,
        and at most eight statements are sent. */
    method RunConditionalSave(p: Plan) returns (reply: Reply)
      requires ValidPlan(p) && found == left == []
      modifies this
      ensures On(p, Finished(reply)) && |found| <= 8
    {
      reply := Loop(p);
      StatementsBounded(engine, p, START, found, left);
    }

    /** At most two rounds of conditional UPDATE, state read, INSERT, re-read and row comparison. */
    method Loop(p: Plan) returns (reply: Reply)
      requires ValidPlan(p) && found == left == []
      modifies this
      ensures On(p, Finished(reply))
    {
      hide Leaves, Replay, Step;
      var duplicate := false;
      var compared: Option<RowState> := None;
      var last: seq<nat> := [];
      var round := 1;
      NothingSent(engine, p);
      while round <= MAX_ROUNDS
        invariant 1 <= round <= MAX_ROUNDS + 1
        invariant On(p, if round <= MAX_ROUNDS then AtUpdate(Locals(round, duplicate, compared, last))
                        else Finished(Race(last)))
      {
        var r := Update(p, Locals(round, duplicate, compared, last));
        if r.Duplicate? {
          return DuplicateKey;
        }
        if r.rows > 0 {
          return SaveUpdated;
        }

        var seen := Read(p, AtRead(Locals(round, duplicate, compared, last)));
        if seen.NullFence? {
          return SchemaDrift;
        }
        var state := seen.state;
        if !state.exists_ {
          if duplicate {
            return Disappeared;
          }
          var inserted := Insert(p, Locals(round, duplicate, compared, last));
          if inserted.Affected? {
            return SaveInserted;
          }
          duplicate := true;
          seen := Read(p, AtReread(Locals(round, duplicate, compared, last)));
          if seen.NullFence? {
            return SchemaDrift;
          }
          state := seen.state;
          if !state.exists_ {
            return DuplicateKey;
          }
        }

        last := state.stored;
        if p.Fenced() && !p.Holds(state.stored) {
          return SaveRejected(state.stored);
        }
        if p.Fenced() && state.stored != p.target {
          compared := None;
        } else {
          var matches := Matches(p, Locals(round, duplicate, compared, last), state);
          if matches {
            return SaveUnchanged(state.stored);
          }
          if compared == Some(state) {
            return Mismatch(last);
          }
          compared := Some(state);
        }
        round := round + 1;
      }
      return Race(last);
    }
  }
}
