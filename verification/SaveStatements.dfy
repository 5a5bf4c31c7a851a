/** The SQL statements a whole-row save sends, as atomic steps on one table. */
module SaveStatements {
  import opened Fence

  type Key = seq<Value>

  /** One table: full primary key to row. */
  type Table = map<Key, Row>

  /** What a save needs: its row's key, the fence it compares, the columns an UPDATE sets and the
      whole row an INSERT writes. */
  datatype Plan = Plan(
    key: Key,
    fence: seq<Column>,
    target: seq<nat>,
    allowEqual: bool,
    set_: map<Column, Value>,
    insert: Row
  ) {
    predicate Fenced() { |fence| > 0 }

    predicate Strict() { Fenced() && !allowEqual }

    predicate Holds(stored: seq<nat>) { ConditionHolds(stored, target, allowEqual) }
  }

  /** The database's own choices: whether UPDATE counts matched or changed rows, what a column keeps
      of a value written to it, how the row comparison judges a stored cell against a value, which
      columns the alternate unique key spans (none when empty), and the defaults of columns the
      message does not know. */
  datatype Engine = Engine(
    clientFoundRows: bool,
    store: (Column, Value) -> Value,
    same: (Column, Value, Value) -> bool,
    unique: seq<Column>,
    defaults: Row
  )

  /** Unsigned integer columns keep what is written and compare exactly. */
  ghost predicate ExactFence(e: Engine, fence: seq<Column>) {
    forall c, n: nat {:trigger e.store(c, UInt(n))} :: c in fence ==>
      && e.store(c, UInt(n)) == UInt(n)
      && (forall x {:trigger e.same(c, x, UInt(n))} :: e.same(c, x, UInt(n)) <==> x == UInt(n))
  }

  /** The row comparison agrees with MySQL on "would this write change the cell". */
  ghost predicate Faithful(e: Engine, p: Plan) {
    forall c, x {:trigger e.same(c, x, p.set_[c])} :: c in p.set_ ==>
      (e.same(c, x, p.set_[c]) <==> x == e.store(c, p.set_[c]))
  }

  /** What building a plan guarantees about it. */
  ghost predicate ValidPlan(p: Plan) {
    && |p.fence| == |p.target|
    && (forall i :: 0 <= i < |p.fence| ==> p.fence[i] in p.set_ && p.set_[p.fence[i]] == UInt(p.target[i]))
    && (forall i, j :: 0 <= i < j < |p.fence| ==> p.fence[i] != p.fence[j])
    && (forall c :: c in p.set_ ==> c in p.insert && p.insert[c] == p.set_[c])
    && (p.Strict() ==> exists i :: 0 <= i < |p.target| && p.target[i] != 0)
  }

  // ---------------------------------------------------------------- rows a save leaves

  function Updated(e: Engine, p: Plan, row: Row): Row {
    row + map c | c in p.set_ :: e.store(c, p.set_[c])
  }

  function Fresh(e: Engine, p: Plan): Row {
    e.defaults + map c | c in p.insert :: e.store(c, p.insert[c])
  }

  /** An UPDATE of this row would change nothing. */
  predicate AlreadyStored(e: Engine, p: Plan, row: Row) {
    forall c | c in p.set_ :: Cell(row, c) == e.store(c, p.set_[c])
  }

  /** Two rows hold the same alternate unique value; Null never clashes. */
  predicate SameUnique(e: Engine, a: Row, b: Row) {
    && |e.unique| > 0
    && forall c | c in e.unique :: Cell(a, c) != Null && Cell(a, c) == Cell(b, c)
  }

  /** Another row of the table holds this row's alternate unique value. */
  predicate Clashes(e: Engine, t: Table, key: Key, row: Row) {
    exists k | k in t :: k != key && SameUnique(e, row, t[k])
  }

  /** The row a save wants to leave under its key. */
  function Wanted(e: Engine, p: Plan, t: Table): Row {
    if p.key in t then Updated(e, p, t[p.key]) else Fresh(e, p)
  }

  /** It has the alternate unique value of another row. */
  predicate FoundClash(e: Engine, p: Plan, t: Table) {
    Clashes(e, t, p.key, Wanted(e, p, t))
  }

  // ---------------------------------------------------------------- statements

  datatype ExecResult = Affected(rows: nat) | Duplicate

  /** The condition of the UPDATE beyond the primary key. */
  predicate Admits(p: Plan, row: Row)
    requires |p.fence| == |p.target|
  {
    if !p.Fenced() then true
    else
      NestedFits(p.fence, p.target, p.allowEqual);
      Eval(Nested(p.fence, p.allowEqual), row, NestedArgs(p.target)).True?
  }

  function ExecUpdate(e: Engine, p: Plan, t: Table): (Table, ExecResult)
    requires |p.fence| == |p.target|
  {
    if p.key !in t || !Admits(p, t[p.key]) then (t, Affected(0))
    else if AlreadyStored(e, p, t[p.key]) then (t, Affected(if e.clientFoundRows then 1 else 0))
    else
      var row := Updated(e, p, t[p.key]);
      if Clashes(e, t, p.key, row) then (t, Duplicate) else (t[p.key := row], Affected(1))
  }

  function ExecInsert(e: Engine, p: Plan, t: Table): (Table, ExecResult) {
    if p.key in t || Clashes(e, t, p.key, Fresh(e, p)) then (t, Duplicate)
    else (t[p.key := Fresh(e, p)], Affected(1))
  }

  /** What a state query saw. */
  datatype RowState = RowState(exists_: bool, stored: seq<nat>)

  datatype StateRead = Seen(state: RowState) | NullFence

  function ReadState(p: Plan, t: Table): StateRead {
    if p.key !in t then Seen(RowState(false, []))
    else if !HasFence(t[p.key], p.fence) then NullFence
    else Seen(RowState(true, FenceOf(t[p.key], p.fence)))
  }

  /** The row exists and every set column compares equal to the value to be written. */
  predicate RowMatches(e: Engine, p: Plan, t: Table) {
    p.key in t && forall c | c in p.set_ :: e.same(c, Cell(t[p.key], c), p.set_[c])
  }

  // ---------------------------------------------------------------- facts about them

  lemma AdmitsMeaning(p: Plan, row: Row)
    requires |p.fence| == |p.target|
    ensures Admits(p, row) <==> !p.Fenced() || Below(row, p.fence, p.target, p.allowEqual)
    ensures HasFence(row, p.fence) && p.Fenced() ==> (Admits(p, row) <==> p.Holds(FenceOf(row, p.fence)))
  {
    if p.Fenced() {
      NestedFits(p.fence, p.target, p.allowEqual);
      FencePredicateMeaning(row, p.fence, p.target, p.allowEqual);
      if HasFence(row, p.fence) {
        BelowIsCondition(row, p.fence, p.target, p.allowEqual);
      }
    }
  }

  /** A row just written carries the message's fence. */
  lemma WrittenFence(e: Engine, p: Plan, row: Row)
    requires ValidPlan(p) && ExactFence(e, p.fence)
    ensures HasFence(Updated(e, p, row), p.fence) && FenceOf(Updated(e, p, row), p.fence) == p.target
    ensures HasFence(Fresh(e, p), p.fence) && FenceOf(Fresh(e, p), p.fence) == p.target
  {
    forall i | 0 <= i < |p.fence|
      ensures Cell(Updated(e, p, row), p.fence[i]) == UInt(p.target[i])
      ensures Cell(Fresh(e, p), p.fence[i]) == UInt(p.target[i])
    {
      assert e.store(p.fence[i], UInt(p.target[i])) == UInt(p.target[i]);
    }
  }

  /** A row that is already the target carries the message's fence. */
  lemma StoredFence(e: Engine, p: Plan, row: Row)
    requires ValidPlan(p) && ExactFence(e, p.fence)
    requires AlreadyStored(e, p, row)
    ensures HasFence(row, p.fence) && FenceOf(row, p.fence) == p.target
  {
    forall i | 0 <= i < |p.fence| ensures Cell(row, p.fence[i]) == UInt(p.target[i]) {
      assert e.store(p.fence[i], UInt(p.target[i])) == UInt(p.target[i]);
    }
  }

  lemma MatchedFence(e: Engine, p: Plan, t: Table)
    requires ValidPlan(p) && ExactFence(e, p.fence)
    requires RowMatches(e, p, t)
    ensures HasFence(t[p.key], p.fence) && FenceOf(t[p.key], p.fence) == p.target
  {
    forall i | 0 <= i < |p.fence| ensures Cell(t[p.key], p.fence[i]) == UInt(p.target[i]) {
      var c := p.fence[i];
      assert e.store(c, UInt(p.target[i])) == UInt(p.target[i]);
      assert e.same(c, Cell(t[p.key], c), p.set_[c]);
    }
  }

  /** With a faithful comparison, "matches" and "nothing to change" are the same fact. */
  lemma FaithfulMatch(e: Engine, p: Plan, t: Table)
    requires Faithful(e, p)
    ensures RowMatches(e, p, t) <==> p.key in t && AlreadyStored(e, p, t[p.key])
  {
    if p.key in t {
      forall c | c in p.set_
        ensures e.same(c, Cell(t[p.key], c), p.set_[c]) <==> Cell(t[p.key], c) == e.store(c, p.set_[c])
      {
      }
    }
  }

  /** After any write, the row is the whole message on every column the statement sets. */
  lemma WrittenRow(e: Engine, p: Plan, row: Row)
    requires ValidPlan(p)
    ensures AlreadyStored(e, p, Updated(e, p, row))
    ensures AlreadyStored(e, p, Fresh(e, p))
  {
  }

  /** What a write does to every single column: an UPDATE stores the columns it sets and leaves the others
      as they were, an INSERT stores the whole message and defaults for what it does not know. */
  lemma WrittenColumns(e: Engine, p: Plan, row: Row, c: Column)
    requires ValidPlan(p)
    ensures Cell(Updated(e, p, row), c) == if c in p.set_ then e.store(c, p.insert[c]) else Cell(row, c)
    ensures Cell(Fresh(e, p), c) == if c in p.insert then e.store(c, p.insert[c]) else Cell(e.defaults, c)
  {
  }

  // ---------------------------------------------------------------- building a plan

  datatype Field = Field(name: Column, unsignedScalar: bool, nullable: bool, autoIncrement: bool)

  datatype Schema = Schema(fields: seq<Field>, primaryKey: seq<Column>)

  datatype Options = Options(fenceFields: seq<Column>, allowEqual: bool, preserveFields: seq<Column>)

  datatype PlanError = NoPrimaryKey | InvalidOptions

  datatype PlanResult = Planned(plan: Plan) | Refused(error: PlanError)

  ghost predicate ValidSchema(s: Schema) {
    && (forall i, j :: 0 <= i < j < |s.fields| ==> s.fields[i].name != s.fields[j].name)
    && (forall c :: c in s.primaryKey ==> exists f :: f in s.fields && f.name == c)
  }

  /** The message holds one serialised value per field, a number in every unsigned scalar. */
  ghost predicate ValidMessage(s: Schema, m: Row) {
    forall f :: f in s.fields ==> f.name in m && (f.unsignedScalar ==> m[f.name].UInt?)
  }

  /** A column that may carry a fence. */
  predicate FenceField(s: Schema, name: Column) {
    && name !in s.primaryKey
    && exists f | f in s.fields :: f.name == name && f.unsignedScalar && !f.nullable && !f.autoIncrement
  }

  predicate Declared(s: Schema, name: Column) {
    exists f | f in s.fields :: f.name == name
  }

  predicate NoRepeat(names: seq<Column>) {
    forall i, j :: 0 <= i < j < |names| ==> names[i] != names[j]
  }

  ghost predicate Writable(s: Schema, o: Options, c: Column) {
    Declared(s, c) && c !in s.primaryKey && c !in o.preserveFields
  }

  /** Every fence column is a declared unsigned scalar outside the key that is never NULL and never assigned
      by the database. */
  ghost predicate UsableFence(s: Schema, names: seq<Column>) {
    && NoRepeat(names)
    && forall c :: c in names ==>
         c !in s.primaryKey && exists f :: f in s.fields && f.name == c && f.unsignedScalar && !f.nullable && !f.autoIncrement
  }

  ghost predicate UsablePreserved(s: Schema, names: seq<Column>, fence: seq<Column>) {
    NoRepeat(names) && forall c :: c in names ==> Declared(s, c) && c !in s.primaryKey && c !in fence
  }

  ghost predicate SomeFenceSet(m: Row, names: seq<Column>) {
    exists c :: c in names && Cell(m, c) != UInt(0)
  }

  ghost predicate SomethingToWrite(s: Schema, o: Options) {
    exists c :: Writable(s, o, c)
  }

  /** Which options are accepted, said over the options and the message alone. */
  ghost predicate Acceptable(s: Schema, m: Row, o: Options) {
    && UsableFence(s, o.fenceFields)
    && UsablePreserved(s, o.preserveFields, o.fenceFields)
    && (|o.fenceFields| > 0 && !o.allowEqual ==> SomeFenceSet(m, o.fenceFields))
    && (|o.preserveFields| > 0 ==> SomethingToWrite(s, o))
  }

  /** The fence tuple of the message, or nothing when some option names an unusable column. */
  method ReadFence(s: Schema, m: Row, names: seq<Column>) returns (ok: bool, target: seq<nat>)
    requires ValidMessage(s, m)
    ensures ok <==> UsableFence(s, names)
    ensures ok ==> |target| == |names| && forall j :: 0 <= j < |names| ==> Cell(m, names[j]) == UInt(target[j])
  {
    target := [];
    for i := 0 to |names|
      invariant |target| == i
      invariant NoRepeat(names[..i])
      invariant forall c :: c in names[..i] ==> FenceField(s, c)
      invariant forall j :: 0 <= j < i ==> Cell(m, names[j]) == UInt(target[j])
    {
      var c := names[i];
      assert names[..i + 1] == names[..i] + [c];
      if c in names[..i] {
        ghost var j :| 0 <= j < i && names[j] == c;
        assert !NoRepeat(names);
        return false, [];
      }
      if !FenceField(s, c) {
        return false, [];
      }
      target := target + [Cell(m, c).n];
    }
    assert names[..|names|] == names;
    ok := true;
  }

  method CheckPreserved(s: Schema, names: seq<Column>, fence: seq<Column>) returns (ok: bool)
    ensures ok <==> UsablePreserved(s, names, fence)
  {
    for i := 0 to |names|
      invariant NoRepeat(names[..i])
      invariant forall c :: c in names[..i] ==> Declared(s, c) && c !in s.primaryKey && c !in fence
    {
      var c := names[i];
      assert names[..i + 1] == names[..i] + [c];
      if c in names[..i] {
        ghost var j :| 0 <= j < i && names[j] == c;
        assert !NoRepeat(names);
        return false;
      }
      if !Declared(s, c) || c in s.primaryKey || c in fence {
        return false;
      }
    }
    assert names[..|names|] == names;
    ok := true;
  }

  /** The columns the UPDATE sets and the row the INSERT writes, column and value kept together. */
  method CollectColumns(s: Schema, m: Row, preserved: seq<Column>) returns (set_: map<Column, Value>, insert: Row)
    requires ValidMessage(s, m)
    ensures forall c :: c in set_ <==> Declared(s, c) && c !in s.primaryKey && c !in preserved
    ensures forall c :: c in insert <==> Declared(s, c)
    ensures forall c :: c in insert ==> insert[c] == Cell(m, c)
    ensures forall c :: c in set_ ==> set_[c] == Cell(m, c)
  {
    set_, insert := map[], map[];
    for i := 0 to |s.fields|
      invariant forall c :: c in insert <==> exists j :: 0 <= j < i && s.fields[j].name == c
      invariant forall c :: c in set_ <==> c in insert && c !in s.primaryKey && c !in preserved
      invariant forall c :: c in insert ==> insert[c] == Cell(m, c)
      invariant forall c :: c in set_ ==> set_[c] == Cell(m, c)
    {
      var c := s.fields[i].name;
      insert := insert[c := Cell(m, c)];
      if c !in s.primaryKey && c !in preserved {
        set_ := set_[c := Cell(m, c)];
      }
    }
    forall c ensures Declared(s, c) <==> exists j :: 0 <= j < |s.fields| && s.fields[j].name == c {
      if j :| 0 <= j < |s.fields| && s.fields[j].name == c {
        assert s.fields[j] in s.fields;
      }
    }
  }

  function KeyOf(s: Schema, m: Row): Key {
    seq(|s.primaryKey|, i requires 0 <= i < |s.primaryKey| => Cell(m, s.primaryKey[i]))
  }

  /** Two messages have one key exactly when they agree on every primary-key column. */
  lemma KeysIdentify(s: Schema, a: Row, b: Row)
    ensures KeyOf(s, a) == KeyOf(s, b) <==> forall c :: c in s.primaryKey ==> Cell(a, c) == Cell(b, c)
  {
    if KeyOf(s, a) == KeyOf(s, b) {
      forall c | c in s.primaryKey ensures Cell(a, c) == Cell(b, c) {
        var i :| 0 <= i < |s.primaryKey| && s.primaryKey[i] == c;
        assert KeyOf(s, a)[i] == KeyOf(s, b)[i];
      }
    } else {
      var i :| 0 <= i < |s.primaryKey| && KeyOf(s, a)[i] != KeyOf(s, b)[i];
      assert s.primaryKey[i] in s.primaryKey;
    }
  }

  /** Options are validated column by column before any SQL is sent. */
  method NewPlan(s: Schema, m: Row, o: Options) returns (r: PlanResult)
    requires ValidSchema(s) && ValidMessage(s, m)
    ensures r == Refused(NoPrimaryKey) <==> s.primaryKey == []
    ensures r.Planned? <==> s.primaryKey != [] && Acceptable(s, m, o)
    ensures r.Planned? ==>
      && ValidPlan(r.plan)
      && r.plan.fence == o.fenceFields && r.plan.allowEqual == o.allowEqual
      && r.plan.key == KeyOf(s, m)
      && (forall c :: c in r.plan.set_ <==> Writable(s, o, c))
      && (forall c :: c in r.plan.insert <==> Declared(s, c))
      && (forall c :: c in r.plan.insert ==> r.plan.insert[c] == Cell(m, c))
  {
    if s.primaryKey == [] {
      return Refused(NoPrimaryKey);
    }
    var fenceOk, target := ReadFence(s, m, o.fenceFields);
    if !fenceOk {
      return Refused(InvalidOptions);
    }
    ZeroFence(m, o.fenceFields, target);
    if |target| > 0 && !o.allowEqual && forall i :: 0 <= i < |target| ==> target[i] == 0 {
      return Refused(InvalidOptions);
    }
    var preservedOk := CheckPreserved(s, o.preserveFields, o.fenceFields);
    if !preservedOk {
      return Refused(InvalidOptions);
    }
    var set_, insert := CollectColumns(s, m, o.preserveFields);
    NothingSet(s, o, set_);
    if set_ == map[] && |o.preserveFields| > 0 {
      return Refused(InvalidOptions);
    }
    r := Planned(Plan(KeyOf(s, m), o.fenceFields, target, o.allowEqual, set_, insert));
    CollectedPlanIsValid(s, m, o, r.plan);
  }

  lemma ZeroFence(m: Row, names: seq<Column>, target: seq<nat>)
    requires |target| == |names| && forall j :: 0 <= j < |names| ==> Cell(m, names[j]) == UInt(target[j])
    ensures SomeFenceSet(m, names) <==> exists i :: 0 <= i < |target| && target[i] != 0
  {
    if i :| 0 <= i < |target| && target[i] != 0 {
      assert names[i] in names;
    }
    if c :| c in names && Cell(m, c) != UInt(0) {
      var i :| 0 <= i < |names| && names[i] == c;
      assert target[i] != 0;
    }
  }

  lemma NothingSet(s: Schema, o: Options, set_: map<Column, Value>)
    requires forall c :: c in set_ <==> Writable(s, o, c)
    ensures set_ == map[] <==> !SomethingToWrite(s, o)
  {
    if set_ != map[] {
      var c :| c in set_;
    }
  }

  lemma CollectedPlanIsValid(s: Schema, m: Row, o: Options, p: Plan)
    requires UsableFence(s, o.fenceFields) && UsablePreserved(s, o.preserveFields, o.fenceFields)
    requires |o.fenceFields| > 0 && !o.allowEqual ==> SomeFenceSet(m, o.fenceFields)
    requires p.fence == o.fenceFields && p.allowEqual == o.allowEqual
    requires |p.target| == |p.fence| && forall j :: 0 <= j < |p.fence| ==> Cell(m, p.fence[j]) == UInt(p.target[j])
    requires forall c :: c in p.set_ <==> Writable(s, o, c)
    requires forall c :: c in p.insert <==> Declared(s, c)
    requires forall c :: c in p.insert ==> p.insert[c] == Cell(m, c)
    requires forall c :: c in p.set_ ==> p.set_[c] == Cell(m, c)
    ensures ValidPlan(p)
  {
    forall i | 0 <= i < |p.fence| ensures p.fence[i] in p.set_ {
      assert p.fence[i] in o.fenceFields;
      assert FenceField(s, p.fence[i]);
      if p.fence[i] in o.preserveFields {
        assert false;
      }
      assert Declared(s, p.fence[i]);
    }
    ZeroFence(m, p.fence, p.target);
  }
}
