/** The two statements of an accepted plan, run one after the other. */
module PlanExecution {
  import opened Wrappers
  import opened ColumnTypes
  import opened TableDef
  import opened ColumnPlanner
  import opened AlterTable
  import opened SchemaPlan
  import opened PlanLegality
  import opened TwoStatements

  /** Index names derived from the table name do not collide. */
  ghost predicate DistinctNaming(t: MessageTable, naming: Naming) {
    && (forall i, j :: 0 <= i < j < |t.indexes| ==> Fold(naming.index(i)) != Fold(naming.index(j)))
    && (forall i :: 0 <= i < |t.indexes| ==> Fold(naming.index(i)) != Fold(naming.unique))
  }

  /** A valid message, a table MySQL can hold, and a plan that was not refused. */
  ghost predicate Planned(t: MessageTable, naming: Naming, o: Online) {
    && Accepted(t, o.columns) && FoldDistinct(t) && ValidOptions(t)
    && LegalTable(o) && DistinctNaming(t, naming) && !Drifts(t, naming, o)
  }

  // ---------------------------------------------------------------- the keys a plan adds

  predicate OverFields(t: MessageTable, m: IndexMeta) {
    |m.parts| > 0 && forall i | 0 <= i < |m.parts| :: Declares(t, m.parts[i].name)
  }

  lemma ExpectedIsOverFields(t: MessageTable, names: seq<string>, unique: bool)
    requires ValidOptions(t) && names in DeclaredKeys(t)
    ensures OverFields(t, ExpectedIndex(t, names, unique))
  {
    assert forall i :: 0 <= i < |names| ==> names[i] in names;
  }

  /** New keys have new names and mention declared columns only. */
  ghost predicate GoodKeys(t: MessageTable, o: Online, keys: seq<NewKey>) {
    && DistinctNames(keys)
    && forall i :: 0 <= i < |keys| ==> OverFields(t, keys[i].meta) && !HasIndexNamed(o, keys[i].name)
  }

  lemma {:induction false} MissingIndexesAreGood(t: MessageTable, naming: Naming, o: Online, n: nat)
    requires n <= |t.indexes| && ValidOptions(t) && DistinctNaming(t, naming)
    ensures GoodKeys(t, o, MissingIndexes(t, naming, o, n))
    ensures var keys := MissingIndexes(t, naming, o, n);
      forall i :: 0 <= i < |keys| ==> exists j :: 0 <= j < n && keys[i].name == naming.index(j)
  {
    hide OverFields, HasIndexNamed, ExpectedIndex, ValidOptions, Fold;
    if n > 0 {
      MissingIndexesAreGood(t, naming, o, n - 1);
      IndexIsOverFields(t, n - 1);
      var before := MissingIndexes(t, naming, o, n - 1);
      forall i | 0 <= i < |before| ensures Fold(before[i].name) != Fold(naming.index(n - 1)) {
        var j :| 0 <= j < n - 1 && before[i].name == naming.index(j);
      }
      if !HasIndexNamed(o, naming.index(n - 1)) {
        GoodKeysGrow(t, o, before, NewKey(naming.index(n - 1), ExpectedIndex(t, t.indexes[n - 1], false)));
      }
    }
  }

  lemma GoodKeysGrow(t: MessageTable, o: Online, keys: seq<NewKey>, k: NewKey)
    requires GoodKeys(t, o, keys) && OverFields(t, k.meta) && !HasIndexNamed(o, k.name)
    requires forall i :: 0 <= i < |keys| ==> Fold(keys[i].name) != Fold(k.name)
    ensures GoodKeys(t, o, keys + [k])
  {
    hide OverFields, HasIndexNamed, Fold;
  }

  lemma {:induction false} MissingIndexesAreAll(t: MessageTable, naming: Naming, o: Online, n: nat, j: nat)
    requires j < n <= |t.indexes| && !HasIndexNamed(o, naming.index(j))
    ensures NewKey(naming.index(j), ExpectedIndex(t, t.indexes[j], false)) in MissingIndexes(t, naming, o, n)
  {
    hide HasIndexNamed, ExpectedIndex;
    if j < n - 1 {
      MissingIndexesAreAll(t, naming, o, n - 1, j);
    }
  }

  lemma IndexIsOverFields(t: MessageTable, i: nat)
    requires ValidOptions(t) && i < |t.indexes|
    ensures OverFields(t, ExpectedIndex(t, t.indexes[i], false))
  {
    hide ValidOptions, OverFields, ExpectedIndex;
    assert t.indexes[i] in DeclaredKeys(t);
    ExpectedIsOverFields(t, t.indexes[i], false);
  }

  lemma MissingKeysAreGood(t: MessageTable, naming: Naming, o: Online)
    requires ValidOptions(t) && DistinctNaming(t, naming)
    ensures GoodKeys(t, o, MissingKeys(t, naming, o))
  {
    hide OverFields, HasIndexNamed, ExpectedIndex, ValidOptions, Fold, GoodKeys;
    MissingIndexesAreGood(t, naming, o, |t.indexes|);
    var keys := MissingIndexes(t, naming, o, |t.indexes|);
    assert MissingKeys(t, naming, o) == keys || t.uniqueKey != [];
    if t.uniqueKey != [] && !HasIndexNamed(o, naming.unique) {
      assert t.uniqueKey in DeclaredKeys(t);
      ExpectedIsOverFields(t, t.uniqueKey, true);
      forall i | 0 <= i < |keys| ensures Fold(keys[i].name) != Fold(naming.unique) {
        var j :| 0 <= j < |t.indexes| && keys[i].name == naming.index(j);
      }
      GoodKeysGrow(t, o, keys, NewKey(naming.unique, ExpectedIndex(t, t.uniqueKey, true)));
    }
  }

  /** Every missing key goes to exactly one of the statements: to the second when it mentions a moved
      column. */
  lemma {:induction false} KeysForFacts(t: MessageTable, o: Online, keys: seq<NewKey>, moved: seq<Clause>, second: bool)
    requires GoodKeys(t, o, keys)
    ensures GoodKeys(t, o, KeysFor(keys, moved, second))
    ensures forall k :: k in KeysFor(keys, moved, second) <==> k in keys && RefersTo(k, moved) == second
  {
    hide OverFields, HasIndexNamed, Fold, RefersTo, GoodKeys;
    GoodKeysShrink(t, o, keys);
    if keys != [] {
      var n := |keys| - 1;
      KeysForFacts(t, o, keys[..n], moved, second);
      var before := KeysFor(keys[..n], moved, second);
      assert forall k :: k in keys <==> k in keys[..n] || k == keys[n];
      if RefersTo(keys[n], moved) == second {
        forall i | 0 <= i < |before| ensures Fold(before[i].name) != Fold(keys[n].name) {
          assert before[i] in keys[..n];
        }
        GoodKeysGrow(t, o, before, keys[n]);
      }
    }
  }

  lemma GoodKeysShrink(t: MessageTable, o: Online, keys: seq<NewKey>)
    requires GoodKeys(t, o, keys)
    ensures keys == [] ==> GoodKeys(t, o, [])
    ensures keys != [] ==>
      var n := |keys| - 1;
      && GoodKeys(t, o, keys[..n])
      && OverFields(t, keys[n].meta) && !HasIndexNamed(o, keys[n].name)
      && forall k :: k in keys[..n] ==> Fold(k.name) != Fold(keys[n].name)
  {
    hide OverFields, HasIndexNamed, Fold;
  }

  // ---------------------------------------------------------------- which clauses move

  lemma {:induction false} NoneMoves(t: MessageTable, o: Online, cs: seq<Clause>)
    requires forall c :: c in cs ==> !Moves(t, o, c)
    ensures Moved(t, o, cs, true) == [] && Moved(t, o, cs, false) == cs
  {
    if cs != [] {
      NoneMoves(t, o, cs[..|cs| - 1]);
    }
  }

  lemma {:induction false} OneMoves(t: MessageTable, o: Online, cs: seq<Clause>, p: nat)
    requires p < |cs| && forall k :: 0 <= k < |cs| ==> (Moves(t, o, cs[k]) <==> k == p)
    ensures Moved(t, o, cs, true) == [cs[p]] && Moved(t, o, cs, false) == Without(cs, p)
  {
    var n := |cs| - 1;
    if p == n {
      NoneMoves(t, o, cs[..n]);
      assert Without(cs, p) == cs[..n];
    } else {
      OneMoves(t, o, cs[..n], p);
      assert Without(cs, p) == Without(cs[..n], p) + [cs[n]];
    }
  }

  /** The auto-increment key is a plain integer field. */
  lemma AutoTarget(t: MessageTable, f: Field)
    requires ValidDescriptor(t) && ValidOptions(t) && f in t.fields
    ensures TargetType(t, f).autoIncrement <==> f.name == t.autoIncrementKey
    ensures f.name == t.autoIncrementKey ==> !IsKeyColumn(t, f)
  {
    if f.name == t.autoIncrementKey {
      assert FieldNamed(t, f.name) == f;
    }
  }

  lemma ClauseIsAuto(t: MessageTable, online: Columns, i: nat)
    requires PlanFields(t, online, |t.fields|).Ok? && ValidDescriptor(t) && ValidOptions(t)
    requires i < |t.fields| && ClauseOf(t, online, i).Some?
    ensures ClauseOf(t, online, i).value.def.autoIncrement <==> t.fields[i].name == t.autoIncrementKey
  {
    hide Decide, Claims, TargetType, PlanFields, Fold, ClauseOf, ClaimOf;
    assert t.fields[i] in t.fields;
    AutoTarget(t, t.fields[i]);
    FieldFacts(t, online, i);
  }

  /** Only the auto-increment field's clause defines an auto-increment column. */
  lemma PlanIsAuto(t: MessageTable, online: Columns, k: nat)
    requires Accepted(t, online) && ValidOptions(t) && k < |Plan(t, online)|
    ensures Plan(t, online)[k].def.autoIncrement <==> Plan(t, online)[k].column == t.autoIncrementKey
    ensures exists i :: 0 <= i < |t.fields| && ClauseOf(t, online, i) == Some(Plan(t, online)[k]) && Plan(t, online)[k].column == t.fields[i].name
  {
    hide Decide, Claims, TargetType, PlanFields, Fold, ClauseOf, ValidOptions;
    PlanOrigins(t, online, |t.fields|);
    var i := Origins(t, online, |t.fields|)[k];
    ClauseIsAuto(t, online, i);
    ClauseNamesField(t, online, i);
  }

  // ---------------------------------------------------------------- columns that exist in time

  /** After the column clauses every declared field has its column. */
  lemma DeclaredExists(t: MessageTable, online: Columns, name: string)
    requires Accepted(t, online) && FoldDistinct(t) && Declares(t, name)
    ensures Exists(AfterAlter(online, Plan(t, online)), name)
  {
    hide Decide, Claims, TargetType, PlanFields, Fold, ClauseOf, AfterAlter, FinalName, FinalMeta;
    var f :| f in t.fields && f.name == name;
    var i :| 0 <= i < |t.fields| && t.fields[i] == f;
    FieldApplied(t, online, i);
    FinalColumnFits(t, online, i);
  }

  lemma KeyColumnsExist(t: MessageTable, online: Columns, m: IndexMeta)
    requires Accepted(t, online) && FoldDistinct(t) && OverFields(t, m)
    ensures PartsExist(AfterAlter(online, Plan(t, online)), m)
  {
    hide FoldDistinct, Declares, AfterAlter, Exists, PlanFields, Fold;
    forall i | 0 <= i < |m.parts| ensures Exists(AfterAlter(online, Plan(t, online)), m.parts[i].name) {
      DeclaredExists(t, online, m.parts[i].name);
    }
  }

  // ---------------------------------------------------------------- a legal statement leaves a legal table

  lemma PartsStayPut(o: Online, s: Statement, m: IndexMeta)
    requires LegalTable(o) && LegalAlter(o.columns, s.columns) && PartsExist(o.columns, m)
    ensures PartsExist(AfterAlter(o.columns, s.columns), RenameIndex(s.columns, m))
  {
    hide Fold, LegalTable, AfterAlter, Touches;
    var after := AfterAlter(o.columns, s.columns);
    ColumnsDistinct(o.columns, s.columns);
    forall i | 0 <= i < |m.parts| ensures Exists(after, RenamedTo(s.columns, m.parts[i].name)) {
      var name := m.parts[i].name;
      assert Exists(o.columns, name);
      RenamedFacts(s.columns, name);
      if Touched(s.columns, name) {
        var k :| 0 <= k < |s.columns| && Touches(s.columns[k], name) && RenamedTo(s.columns, name) == s.columns[k].column;
        AfterLookup(o.columns, s.columns, s.columns[k].column);
        assert s.columns[k].column in after;
      } else {
        var n :| n in o.columns && Fold(n) == Fold(name);
        SameTouch(s.columns, n, name);
        UntouchedStays(o.columns, s.columns, n);
      }
    }
  }

  lemma SameTouch(cs: seq<Clause>, a: string, b: string)
    requires Fold(a) == Fold(b)
    ensures Touched(cs, a) <==> Touched(cs, b)
  {
    hide Fold;
    assert forall i :: 0 <= i < |cs| ==> (Touches(cs[i], a) <==> Touches(cs[i], b));
  }

  lemma StatementKeepsLegal(o: Online, s: Statement)
    requires LegalTable(o) && LegalStatement(o, s)
    ensures LegalTable(AfterStatement(o, s))
  {
    hide Fold, LegalAlter, AutoLegal, AfterAlter, PartsExist, RenameIndex, AddedIndexes;
    var after := AfterStatement(o, s);
    AlterKeepsNamesUnique(o.columns, s.columns);
    AddedLookup(s.keys);
    forall k | k in after.indexes ensures PartsExist(after.columns, after.indexes[k]) {
      if k in AddedIndexes(s.keys) {
        var i :| 0 <= i < |s.keys| && s.keys[i].name == k && s.keys[i].meta == AddedIndexes(s.keys)[k];
      } else {
        PartsStayPut(o, s, o.indexes[k]);
      }
    }
    if s.primary.None? && o.primaryKey.Some? {
      PartsStayPut(o, s, o.primaryKey.value);
    }
  }
}
