/** The whole alignment plan: column clauses, missing keys, and the split into two ALTER statements. */
module SchemaPlan {
  import opened Wrappers
  import opened ColumnTypes
  import opened TableDef
  import opened ColumnPlanner
  import opened AlterTable
  import opened NameOrder

  // ---------------------------------------------------------------- keys

  /** One column of a key, with a prefix length on TEXT and BLOB columns. */
  datatype KeyPart = KeyPart(name: string, prefix: Option<nat>)

  datatype IndexMeta = IndexMeta(unique: bool, parts: seq<KeyPart>)

  /** The table as information_schema shows it. */
  datatype Online = Online(columns: Columns, indexes: map<string, IndexMeta>, primaryKey: Option<IndexMeta>)

  /** How index names are derived from the table name. */
  datatype Naming = Naming(index: nat -> string, unique: string)

  datatype NewKey = NewKey(name: string, meta: IndexMeta)

  /** One ALTER; its clauses apply together. */
  datatype Statement = Statement(columns: seq<Clause>, keys: seq<NewKey>, primary: Option<IndexMeta>) {
    predicate Empty() { columns == [] && keys == [] && primary.None? }
  }

  datatype SchemaPlan = SchemaPlan(first: Statement, second: Statement)

  // ---------------------------------------------------------------- drift that is refused

  function Part(t: MessageTable, name: string): KeyPart {
    KeyPart(name, if NeedsIndexPrefix(t, name) then Some(TEXT_INDEX_PREFIX) else None)
  }

  function Parts(t: MessageTable, names: seq<string>): (parts: seq<KeyPart>)
    ensures |parts| == |names|
    ensures forall i :: 0 <= i < |parts| ==> parts[i] == Part(t, names[i])
  {
    seq(|names|, i requires 0 <= i < |names| => Part(t, names[i]))
  }

  function ExpectedIndex(t: MessageTable, names: seq<string>, unique: bool): IndexMeta {
    IndexMeta(unique, Parts(t, names))
  }

  predicate SameIndex(a: IndexMeta, b: IndexMeta) {
    && a.unique == b.unique && |a.parts| == |b.parts|
    && forall i :: 0 <= i < |a.parts| ==> Fold(a.parts[i].name) == Fold(b.parts[i].name) && a.parts[i].prefix == b.parts[i].prefix
  }

  /** An online key column whose uniqueness is not that of the declared one. */
  predicate IsLegacyKey(f: Field, meta: ColumnMeta) {
    if f.kind.BytesKind? then Normal(meta.body.base) != VarBinary
    else Normal(meta.body.base) != VarChar || Fold(meta.collation) != KEY_STRING_COLLATION
  }

  /** The column drift is checked on: the namesake, else the smallest name that carries the number. */
  predicate Examines(online: Columns, f: Field, name: string) {
    && name in online
    && (Fold(name) == Fold(f.name)
        || (Candidates(online, f.name) == {} && IsSmallest(name, Owners(online, f.number))))
  }

  predicate ColumnDrifts(t: MessageTable, f: Field, meta: ColumnMeta) {
    var target := TargetType(t, f);
    if IsKeyColumn(t, f) && IsLegacyKey(f, meta) then true
    else
      || meta.nullable != !target.notNull
      || meta.default_ != target.default_
      || meta.autoIncrement != (f.name == t.autoIncrementKey)
  }

  predicate FindsIndex(o: Online, name: string, k: string) {
    k in o.indexes && Fold(k) == Fold(name)
  }

  /** A field's name fits several columns. */
  predicate AmbiguousName(t: MessageTable, cols: Columns) {
    exists i | 0 <= i < |t.fields| :: |Candidates(cols, t.fields[i].name)| > 1
  }

  /** Some name is ambiguous, or some attribute of an examined column differs. */
  predicate ColumnsDrift(t: MessageTable, cols: Columns) {
    || AmbiguousName(t, cols)
    || (exists i, n | 0 <= i < |t.fields| && n in cols :: Examines(cols, t.fields[i], n) && ColumnDrifts(t, t.fields[i], cols[n]))
  }

  /** Some column, index or primary key differs in a way only a destructive change could repair. */
  ghost predicate Drifts(t: MessageTable, naming: Naming, o: Online) {
    || ColumnsDrift(t, o.columns)
    || (exists i, k | 0 <= i < |t.indexes| && k in o.indexes ::
          FindsIndex(o, naming.index(i), k) && !SameIndex(o.indexes[k], ExpectedIndex(t, t.indexes[i], false)))
    || (t.uniqueKey != [] && exists k | k in o.indexes ::
          FindsIndex(o, naming.unique, k) && !SameIndex(o.indexes[k], ExpectedIndex(t, t.uniqueKey, true)))
    || (t.primaryKey != [] && o.primaryKey.Some? && !SameIndex(o.primaryKey.value, ExpectedIndex(t, t.primaryKey, true)))
  }

  // ---------------------------------------------------------------- the plan

  predicate HasIndexNamed(o: Online, name: string) {
    exists k | k in o.indexes :: Fold(k) == Fold(name)
  }

  /** Declared indexes the table does not have, by name; only ever added. */
  function MissingIndexes(t: MessageTable, naming: Naming, o: Online, n: nat): seq<NewKey>
    requires n <= |t.indexes|
  {
    if n == 0 then []
    else
      var before := MissingIndexes(t, naming, o, n - 1);
      if HasIndexNamed(o, naming.index(n - 1)) then before
      else before + [NewKey(naming.index(n - 1), ExpectedIndex(t, t.indexes[n - 1], false))]
  }

  function MissingKeys(t: MessageTable, naming: Naming, o: Online): seq<NewKey> {
    MissingIndexes(t, naming, o, |t.indexes|)
    + if t.uniqueKey == [] || HasIndexNamed(o, naming.unique) then []
      else [NewKey(naming.unique, ExpectedIndex(t, t.uniqueKey, true))]
  }

  predicate AddsPrimary(t: MessageTable, o: Online) {
    t.primaryKey != [] && o.primaryKey.None?
  }

  /** Clauses that travel with ADD PRIMARY KEY: auto-increment columns of the missing primary key. */
  predicate Moves(t: MessageTable, o: Online, c: Clause) {
    AddsPrimary(t, o) && c.def.autoIncrement && c.column in t.primaryKey
  }

  function Moved(t: MessageTable, o: Online, clauses: seq<Clause>, moved: bool): seq<Clause> {
    if clauses == [] then []
    else
      var before := Moved(t, o, clauses[..|clauses| - 1], moved);
      var last := clauses[|clauses| - 1];
      if Moves(t, o, last) == moved then before + [last] else before
  }

  /** The text of the index clause mentions a column of a moved clause: as a part, or as its own name. */
  predicate RefersTo(k: NewKey, moved: seq<Clause>) {
    exists i | 0 <= i < |moved| ::
      k.name == moved[i].column || exists j | 0 <= j < |k.meta.parts| :: k.meta.parts[j].name == moved[i].column
  }

  function KeysFor(keys: seq<NewKey>, moved: seq<Clause>, second: bool): seq<NewKey> {
    if keys == [] then []
    else
      var before := KeysFor(keys[..|keys| - 1], moved, second);
      var last := keys[|keys| - 1];
      if RefersTo(last, moved) == second then before + [last] else before
  }

  function SplitPlan(t: MessageTable, naming: Naming, o: Online, clauses: seq<Clause>): SchemaPlan {
    var moved := Moved(t, o, clauses, true);
    var keys := MissingKeys(t, naming, o);
    SchemaPlan(
      Statement(Moved(t, o, clauses, false), KeysFor(keys, moved, false), None),
      Statement(moved, KeysFor(keys, moved, true),
                if AddsPrimary(t, o) then Some(ExpectedIndex(t, t.primaryKey, true)) else None))
  }

  ghost function PlanSchema(t: MessageTable, naming: Naming, o: Online, expandOnly: bool): Result<SchemaPlan> {
    match PlanColumns(t, o.columns, false)
    case Err(e) => Err(e)
    case Ok(clauses) =>
      if Drifts(t, naming, o) then Err(SchemaDrift)
      else if expandOnly && exists c | c in clauses :: !c.Add? then Err(ExpandOnlyViolation)
      else Ok(SplitPlan(t, naming, o, clauses))
  }

  // ---------------------------------------------------------------- the planner's own loops

  method FieldsDrift(t: MessageTable, cols: Columns) returns (drifts: bool)
    ensures drifts <==> ColumnsDrift(t, cols)
  {
    for i := 0 to |t.fields|
      invariant forall j | 0 <= j < i :: |Candidates(cols, t.fields[j].name)| <= 1
      invariant forall j, n | 0 <= j < i && n in cols :: Examines(cols, t.fields[j], n) ==> !ColumnDrifts(t, t.fields[j], cols[n])
    {
      if |Candidates(cols, t.fields[i].name)| > 1 {
        return true;
      }
      if exists n | n in cols :: Examines(cols, t.fields[i], n) && ColumnDrifts(t, t.fields[i], cols[n]) {
        return true;
      }
    }
    return false;
  }

  method ValidateSchemaDrift(t: MessageTable, naming: Naming, o: Online) returns (drifts: bool)
    ensures drifts <==> Drifts(t, naming, o)
  {
    drifts := FieldsDrift(t, o.columns);
    if drifts {
      return true;
    }
    for i := 0 to |t.indexes|
      invariant forall j, k | 0 <= j < i && k in o.indexes ::
        FindsIndex(o, naming.index(j), k) ==> SameIndex(o.indexes[k], ExpectedIndex(t, t.indexes[j], false))
    {
      if exists k | k in o.indexes :: FindsIndex(o, naming.index(i), k) && !SameIndex(o.indexes[k], ExpectedIndex(t, t.indexes[i], false)) {
        return true;
      }
    }
    if t.uniqueKey != [] && exists k | k in o.indexes ::
         FindsIndex(o, naming.unique, k) && !SameIndex(o.indexes[k], ExpectedIndex(t, t.uniqueKey, true)) {
      return true;
    }
    return t.primaryKey != [] && o.primaryKey.Some? && !SameIndex(o.primaryKey.value, ExpectedIndex(t, t.primaryKey, true));
  }

  method MissingIndexClauses(t: MessageTable, naming: Naming, o: Online) returns (keys: seq<NewKey>)
    ensures keys == MissingKeys(t, naming, o)
  {
    keys := [];
    for i := 0 to |t.indexes|
      invariant keys == MissingIndexes(t, naming, o, i)
    {
      if !HasIndexNamed(o, naming.index(i)) {
        keys := keys + [NewKey(naming.index(i), ExpectedIndex(t, t.indexes[i], false))];
      }
    }
    if t.uniqueKey != [] && !HasIndexNamed(o, naming.unique) {
      keys := keys + [NewKey(naming.unique, ExpectedIndex(t, t.uniqueKey, true))];
    }
  }

  /** Column clauses first; then drift is refused, auto-increment clauses of a missing primary key move
      to the second statement, and missing indexes follow the columns they need. */
  method PlanSchemaAlignment(t: MessageTable, naming: Naming, o: Online, expandOnly: bool) returns (r: Result<SchemaPlan>)
    requires ValidDescriptor(t)
    ensures r == PlanSchema(t, naming, o, expandOnly)
  {
    var built := BuildColumnClauses(t, o.columns, false);
    if built.Err? {
      return Err(built.error);
    }
    var drifts := ValidateSchemaDrift(t, naming, o);
    if drifts {
      return Err(SchemaDrift);
    }
    var clauses := built.value;
    var moved: seq<Clause> := [];
    var kept: seq<Clause> := [];
    for i := 0 to |clauses|
      invariant moved == Moved(t, o, clauses[..i], true)
      invariant kept == Moved(t, o, clauses[..i], false)
    {
      assert clauses[..i + 1][..i] == clauses[..i];
      if Moves(t, o, clauses[i]) {
        moved := moved + [clauses[i]];
      } else {
        kept := kept + [clauses[i]];
      }
    }
    assert clauses[..|clauses|] == clauses;
    var missing := MissingIndexClauses(t, naming, o);
    var now: seq<NewKey> := [];
    var later: seq<NewKey> := [];
    for i := 0 to |missing|
      invariant now == KeysFor(missing[..i], moved, false)
      invariant later == KeysFor(missing[..i], moved, true)
    {
      assert missing[..i + 1][..i] == missing[..i];
      if RefersTo(missing[i], moved) {
        later := later + [missing[i]];
      } else {
        now := now + [missing[i]];
      }
    }
    assert missing[..|missing|] == missing;
    if expandOnly && exists c | c in clauses :: !c.Add? {
      return Err(ExpandOnlyViolation);
    }
    var primary: Option<IndexMeta> := None;
    if AddsPrimary(t, o) {
      primary := Some(ExpectedIndex(t, t.primaryKey, true));
    }
    return Ok(SchemaPlan(Statement(kept, now, None), Statement(moved, later, primary)));
  }
}
