/** The whole alignment settles: once both statements have run, planning again finds no drift and has
    nothing to add. */
module SchemaSettles {
  import opened Wrappers
  import opened ColumnTypes
  import opened TableDef
  import opened ColumnPlanner
  import opened AlterTable
  import opened SchemaPlan
  import opened PlanLegality
  import opened TwoStatements
  import opened PlanExecution
  import opened PlanRunsExactly
  import opened AutoIncrementPlan
  import opened SchemaConvergence
  import opened SchemaSync

  /** No field's namesake carries the number of an earlier field. */
  ghost predicate NamesKept(t: MessageTable, o: Online) {
    forall i :: 0 <= i < |t.fields| ==> NameKept(t, o, i)
  }

  // ---------------------------------------------------------------- columns

  lemma AlignedKeyIsNoLegacy(t: MessageTable, f: Field, meta: ColumnMeta)
    requires IsKeyColumn(t, f) && !IsLegacyKey(f, meta)
    ensures !IsLegacyKey(f, MetaOf(AlignedDef(meta, TargetType(t, f)), f.number))
  {
  }

  lemma WrittenDoesNotDrift(t: MessageTable, f: Field, def: ColumnDef)
    requires ValidDescriptor(t) && ValidOptions(t) && f in t.fields
    requires def == TargetType(t, f).(body := def.body)
    requires IsKeyColumn(t, f) ==> !IsLegacyKey(f, MetaOf(def, f.number))
    ensures !ColumnDrifts(t, f, MetaOf(def, f.number))
  {
    hide TargetType, IsLegacyKey, IsKeyColumn, ValidOptions;
    AutoTarget(t, f);
  }

  /** What a field ends up with passes the drift check. */
  lemma FinalDoesNotDrift(t: MessageTable, naming: Naming, o: Online, i: nat)
    requires Planned(t, naming, o) && NamesKept(t, o) && i < |t.fields|
    ensures !ColumnDrifts(t, t.fields[i], FinalMeta(t, o.columns, i))
  {
    hide Fold, PlanFields, ClaimOf, ClauseOf, FoldDistinct, LegalTable, DistinctNaming, NameKept, IsLegacyKey, ValidOptions, ColumnDrifts,
         FindsIndex, SameIndex, TargetType, IsKeyColumn, AlignedType;
    var f, claim := t.fields[i], ClaimOf(t, o.columns, i);
    assert f in t.fields;
    FieldFacts(t, o.columns, i);
    if claim.Some? {
      assert Examines(o.columns, f, claim.value) by {
        if Fold(claim.value) != Fold(f.name) {
          forall m | m in o.columns ensures Fold(m) != Fold(f.name) {
            if Fold(m) == Fold(f.name) {
              KeptNameIsClaimed(t, o, i, m);
            }
          }
          assert Candidates(o.columns, f.name) == {};
        }
      }
      assert !ColumnDrifts(t, f, o.columns[claim.value]);
      KeptIsNoLegacy(t, f, o.columns[claim.value]);
      if ClauseOf(t, o.columns, i).Some? {
        WrittenDoesNotDrift(t, f, AlignedDef(o.columns[claim.value], TargetType(t, f)));
      }
    } else {
      TargetIsNoLegacy(t, f);
      WrittenDoesNotDrift(t, f, TargetType(t, f));
    }
  }

  lemma KeptIsNoLegacy(t: MessageTable, f: Field, meta: ColumnMeta)
    requires !ColumnDrifts(t, f, meta)
    ensures IsKeyColumn(t, f) ==> !IsLegacyKey(f, MetaOf(AlignedDef(meta, TargetType(t, f)), f.number))
  {
    if IsKeyColumn(t, f) {
      AlignedKeyIsNoLegacy(t, f, meta);
    }
  }

  lemma TargetIsNoLegacy(t: MessageTable, f: Field)
    ensures IsKeyColumn(t, f) ==> !IsLegacyKey(f, MetaOf(TargetType(t, f), f.number))
  {
  }

  /** So every field's column ends with exactly the declared attributes, holds the declared type, and as a
      key column has the declared base type and collation. */
  lemma AttributesSettle(t: MessageTable, naming: Naming, o: Online, i: nat)
    requires Planned(t, naming, o) && NamesKept(t, o) && i < |t.fields|
    ensures var f := t.fields[i];
      var target, final := TargetType(t, f), FinalMeta(t, o.columns, i);
      && IsTypeMatch(final.body, target.body) && final.fieldNum == f.number
      && final.nullable == !target.notNull && final.default_ == target.default_
      && (final.autoIncrement <==> f.name == t.autoIncrementKey)
      && (IsKeyColumn(t, f) ==>
            Normal(final.body.base) == target.body.base && (f.kind.StringKind? ==> Fold(final.collation) == KEY_STRING_COLLATION))
  {
    hide PlanFields, ClaimOf, ClauseOf, FoldDistinct, LegalTable, DistinctNaming, NamesKept, ValidOptions, FinalMeta, Drifts, Fold;
    FinalDoesNotDrift(t, naming, o, i);
    FinalColumnFits(t, o.columns, i);
  }

  /** Checking drift on the resulting columns finds, for every field, exactly the column it ended with. */
  lemma ColumnsSettle(t: MessageTable, naming: Naming, o: Online, i: nat, n: string)
    requires Planned(t, naming, o) && NamesKept(t, o) && i < |t.fields|
    requires var after := AfterAlter(o.columns, Plan(t, o.columns));
      n in after && Examines(after, t.fields[i], n)
    ensures !ColumnDrifts(t, t.fields[i], AfterAlter(o.columns, Plan(t, o.columns))[n])
  {
    hide Fold, PlanFields, ClaimOf, ClauseOf, FoldDistinct, LegalTable, DistinctNaming, NamesKept, ValidOptions, ColumnDrifts,
         LegalAlter, AfterAlter, Drifts, FinalName, FinalMeta;
    var after := AfterAlter(o.columns, Plan(t, o.columns));
    FinalDoesNotDrift(t, naming, o, i);
    FieldApplied(t, o.columns, i);
    FinalColumnFits(t, o.columns, i);
    PlanIsLegal(t, o.columns);
    OnlineIsUnique(o);
    AlterKeepsNamesUnique(o.columns, Plan(t, o.columns));
    var own := FinalName(t, o.columns, i);
    assert own in Candidates(after, t.fields[i].name);
    assert n == own;
  }

  lemma OnlineIsUnique(o: Online)
    requires LegalTable(o)
    ensures FoldUnique(o.columns)
  {
  }

  // ---------------------------------------------------------------- keys

  ghost predicate Within(cs: seq<Clause>, all: seq<Clause>) {
    forall i :: 0 <= i < |cs| ==> cs[i] in all
  }

  lemma {:induction false} MovedIsWithin(t: MessageTable, o: Online, cs: seq<Clause>, moved: bool)
    ensures Within(Moved(t, o, cs, moved), cs)
  {
    if cs != [] {
      MovedIsWithin(t, o, cs[..|cs| - 1], moved);
    }
  }

  /** No clause renames a column that has a declared field's name. */
  lemma DeclaredNameStays(t: MessageTable, o: Online, cs: seq<Clause>, part: string, i: nat)
    requires Accepted(t, o.columns) && FoldDistinct(t) && ValidOptions(t) && NamesKept(t, o) && Within(cs, Plan(t, o.columns))
    requires i < |t.fields| && Fold(part) == Fold(t.fields[i].name)
    ensures Fold(RenamedTo(cs, part)) == Fold(part)
  {
    hide Fold, PlanFields, ClaimOf, ClauseOf, FoldDistinct, NameKept, ValidOptions;
    RenamedFacts(cs, part);
    if Touched(cs, part) {
      var k :| 0 <= k < |cs| && Touches(cs[k], part) && RenamedTo(cs, part) == cs[k].column;
      var p :| 0 <= p < |Plan(t, o.columns)| && Plan(t, o.columns)[p] == cs[k];
      PlanIsAuto(t, o.columns, p);
      var g :| 0 <= g < |t.fields| && ClauseOf(t, o.columns, g) == Some(cs[k]) && cs[k].column == t.fields[g].name;
      FieldFacts(t, o.columns, g);
      if cs[k].Change? {
        KeptNameIsClaimed(t, o, i, cs[k].old_);
        ClaimsDifferOrSame(t, o.columns, i, g);
      }
    }
  }

  lemma ClaimsDifferOrSame(t: MessageTable, online: Columns, i: nat, j: nat)
    requires i < |t.fields| && j < |t.fields| && ClaimOf(t, online, i).Some? && ClaimOf(t, online, i) == ClaimOf(t, online, j)
    ensures i == j
  {
    if i != j {
      ClaimsDiffer(t, online, i, j);
    }
  }

  /** An index that is as declared stays so. */
  lemma IndexStays(t: MessageTable, o: Online, cs: seq<Clause>, m: IndexMeta, want: IndexMeta)
    requires Accepted(t, o.columns) && FoldDistinct(t) && ValidOptions(t) && NamesKept(t, o) && Within(cs, Plan(t, o.columns))
    requires SameIndex(m, want) && OverFields(t, want)
    ensures SameIndex(RenameIndex(cs, m), want)
  {
    hide Fold, PlanFields, FoldDistinct, NamesKept, ValidOptions, RenamedTo;
    var r := RenameIndex(cs, m);
    forall j | 0 <= j < |r.parts| ensures Fold(r.parts[j].name) == Fold(want.parts[j].name) && r.parts[j].prefix == want.parts[j].prefix {
      assert Declares(t, want.parts[j].name);
      var f :| f in t.fields && f.name == want.parts[j].name;
      var i :| 0 <= i < |t.fields| && t.fields[i] == f;
      DeclaredNameStays(t, o, cs, m.parts[j].name, i);
    }
  }

  /** The keys the message declares, with the names they get. */
  ghost predicate Wants(t: MessageTable, naming: Naming, k: NewKey) {
    || (exists j :: 0 <= j < |t.indexes| && k == NewKey(naming.index(j), ExpectedIndex(t, t.indexes[j], false)))
    || (t.uniqueKey != [] && k == NewKey(naming.unique, ExpectedIndex(t, t.uniqueKey, true)))
  }

  lemma {:induction false} MissingIndexesAreWanted(t: MessageTable, naming: Naming, o: Online, n: nat)
    requires n <= |t.indexes|
    ensures forall k :: k in MissingIndexes(t, naming, o, n) ==> Wants(t, naming, k)
  {
    hide HasIndexNamed, ExpectedIndex;
    if n > 0 {
      MissingIndexesAreWanted(t, naming, o, n - 1);
      assert Wants(t, naming, NewKey(naming.index(n - 1), ExpectedIndex(t, t.indexes[n - 1], false)));
    }
  }

  /** Missing are exactly the wanted keys whose names are not there. */
  lemma MissingAreWanted(t: MessageTable, naming: Naming, o: Online, k: NewKey)
    ensures k in MissingKeys(t, naming, o) ==> Wants(t, naming, k)
    ensures Wants(t, naming, k) && !HasIndexNamed(o, k.name) ==> k in MissingKeys(t, naming, o)
  {
    hide HasIndexNamed, ExpectedIndex, MissingIndexes;
    MissingIndexesAreWanted(t, naming, o, |t.indexes|);
    if Wants(t, naming, k) && !HasIndexNamed(o, k.name) {
      if j :| 0 <= j < |t.indexes| && k == NewKey(naming.index(j), ExpectedIndex(t, t.indexes[j], false)) {
        MissingIndexesAreAll(t, naming, o, |t.indexes|, j);
      }
    }
  }

  lemma WantedByName(t: MessageTable, naming: Naming, a: NewKey, b: NewKey)
    requires DistinctNaming(t, naming) && Wants(t, naming, a) && Wants(t, naming, b) && Fold(a.name) == Fold(b.name)
    ensures a == b
  {
    hide Fold, ExpectedIndex;
  }

  lemma WantedIsOverFields(t: MessageTable, naming: Naming, k: NewKey)
    requires ValidOptions(t) && Wants(t, naming, k)
    ensures OverFields(t, k.meta)
  {
    hide ValidOptions, OverFields, ExpectedIndex;
    if j :| 0 <= j < |t.indexes| && k == NewKey(naming.index(j), ExpectedIndex(t, t.indexes[j], false)) {
      IndexIsOverFields(t, j);
    } else {
      assert t.uniqueKey in DeclaredKeys(t);
      ExpectedIsOverFields(t, t.uniqueKey, true);
    }
  }

  /** Every index online that has a wanted name is as wanted. */
  ghost predicate AsWanted(t: MessageTable, naming: Naming, o: Online) {
    forall k, x :: Wants(t, naming, k) && x in o.indexes && Fold(x) == Fold(k.name) ==> SameIndex(o.indexes[x], k.meta)
  }

  lemma NoDriftMeansAsWanted(t: MessageTable, naming: Naming, o: Online)
    requires !Drifts(t, naming, o)
    ensures AsWanted(t, naming, o)
  {
    hide Fold, ExpectedIndex, SameIndex, Examines, ColumnDrifts;
    forall k, x | Wants(t, naming, k) && x in o.indexes && Fold(x) == Fold(k.name) ensures SameIndex(o.indexes[x], k.meta) {
      if j :| 0 <= j < |t.indexes| && k == NewKey(naming.index(j), ExpectedIndex(t, t.indexes[j], false)) {
        assert FindsIndex(o, naming.index(j), x);
      } else {
        assert FindsIndex(o, naming.unique, x);
      }
    }
  }

  /** A statement of the plan keeps wanted indexes as wanted and adds wanted ones only. */
  lemma StatementKeepsWanted(t: MessageTable, naming: Naming, o: Online, now: Online, s: Statement)
    requires Planned(t, naming, o) && NamesKept(t, o) && Within(s.columns, Plan(t, o.columns)) && AsWanted(t, naming, now)
    requires forall i :: 0 <= i < |s.keys| ==> Wants(t, naming, s.keys[i])
    ensures AsWanted(t, naming, AfterStatement(now, s))
  {
    hide Fold, ExpectedIndex, SameIndex, PlanFields, Drifts, LegalTable, ValidOptions, FoldDistinct, DistinctNaming, NamesKept, Wants,
         RenameIndex, AfterAlter, AddedIndexes, OverFields;
    var after := AfterStatement(now, s);
    AddedLookup(s.keys);
    forall k, x | Wants(t, naming, k) && x in after.indexes && Fold(x) == Fold(k.name) ensures SameIndex(after.indexes[x], k.meta) {
      if x in AddedIndexes(s.keys) {
        var i :| 0 <= i < |s.keys| && s.keys[i].name == x && s.keys[i].meta == AddedIndexes(s.keys)[x];
        WantedByName(t, naming, k, s.keys[i]);
        SameAsItself(k.meta);
      } else {
        WantedIsOverFields(t, naming, k);
        IndexStays(t, o, s.columns, now.indexes[x], k.meta);
      }
    }
  }

  lemma SameAsItself(m: IndexMeta)
    ensures SameIndex(m, m)
  {
  }

  lemma NamesStay(now: Online, s: Statement, name: string)
    requires HasIndexNamed(now, name)
    ensures HasIndexNamed(AfterStatement(now, s), name)
  {
    hide Fold, RenameIndex, AfterAlter, AddedIndexes;
    var x :| x in now.indexes && Fold(x) == Fold(name);
    assert x in AfterStatement(now, s).indexes;
  }

  lemma NewNamesAppear(now: Online, s: Statement, k: NewKey)
    requires k in s.keys && DistinctNames(s.keys)
    ensures HasIndexNamed(AfterStatement(now, s), k.name)
  {
    hide Fold, RenameIndex, AfterAlter, AddedIndexes;
    AddedLookup(s.keys);
    var i :| 0 <= i < |s.keys| && s.keys[i] == k;
    assert k.name in AfterStatement(now, s).indexes;
  }

  function AfterPlan(o: Online, plan: SchemaPlan): Online {
    AfterStatement(AfterStatement(o, plan.first), plan.second)
  }

  lemma KeysSettle(t: MessageTable, naming: Naming, o: Online)
    requires Planned(t, naming, o) && NamesKept(t, o)
    ensures var after := AfterPlan(o, SplitPlan(t, naming, o, Plan(t, o.columns)));
      AsWanted(t, naming, after) && forall k :: Wants(t, naming, k) ==> HasIndexNamed(after, k.name)
  {
    hide Fold, PlanFields, Drifts, LegalTable, ValidOptions, FoldDistinct, DistinctNaming, NamesKept, Wants, AsWanted, AfterStatement,
         HasIndexNamed, MissingKeys, KeysFor, Moved, OverFields, RefersTo;
    var cs, keys := Plan(t, o.columns), MissingKeys(t, naming, o);
    var moved := Moved(t, o, cs, true);
    var plan := SplitPlan(t, naming, o, cs);
    MissingKeysAreGood(t, naming, o);
    KeysForFacts(t, o, keys, moved, false);
    KeysForFacts(t, o, keys, moved, true);
    MovedIsWithin(t, o, cs, false);
    MovedIsWithin(t, o, cs, true);
    NoDriftMeansAsWanted(t, naming, o);
    forall k | k in keys ensures Wants(t, naming, k) {
      MissingAreWanted(t, naming, o, k);
    }
    StatementKeepsWanted(t, naming, o, o, plan.first);
    StatementKeepsWanted(t, naming, o, AfterStatement(o, plan.first), plan.second);
    forall k | Wants(t, naming, k) ensures HasIndexNamed(AfterPlan(o, plan), k.name) {
      MissingAreWanted(t, naming, o, k);
      if HasIndexNamed(o, k.name) {
        NamesStay(o, plan.first, k.name);
        NamesStay(AfterStatement(o, plan.first), plan.second, k.name);
      } else if RefersTo(k, moved) {
        NewNamesAppear(AfterStatement(o, plan.first), plan.second, k);
      } else {
        NewNamesAppear(o, plan.first, k);
        NamesStay(AfterStatement(o, plan.first), plan.second, k.name);
      }
    }
  }

  /** The key is as declared: as unique, over the same columns in the same order, with a prefix of the
      fixed length exactly on those whose declared type is TEXT or BLOB. */
  ghost predicate IsDeclaredKey(t: MessageTable, m: IndexMeta, names: seq<string>, unique: bool) {
    && m.unique == unique && |m.parts| == |names|
    && forall i :: 0 <= i < |names| ==>
         && Fold(m.parts[i].name) == Fold(names[i])
         && (forall f :: f in t.fields && f.name == names[i] ==>
               m.parts[i].prefix == if IsTextOrBlob(TargetType(t, f).body.base) then Some(TEXT_INDEX_PREFIX) else None)
  }

  lemma SameIsDeclared(t: MessageTable, m: IndexMeta, names: seq<string>, unique: bool)
    requires ValidDescriptor(t) && SameIndex(m, ExpectedIndex(t, names, unique))
    ensures IsDeclaredKey(t, m, names, unique)
  {
    hide Fold, TargetType, ValidDescriptor;
    forall i, f | 0 <= i < |names| && f in t.fields && f.name == names[i]
      ensures m.parts[i].prefix == if IsTextOrBlob(TargetType(t, f).body.base) then Some(TEXT_INDEX_PREFIX) else None
    {
      SameNameSameField(t, f);
      assert m.parts[i].prefix == Part(t, names[i]).prefix;
    }
  }

  /** After an accepted plan every declared index, the unique key and the primary key are there as declared. */
  lemma KeysAreAsDeclared(t: MessageTable, naming: Naming, o: Online)
    requires Planned(t, naming, o) && NamesKept(t, o)
    ensures var after := AfterPlan(o, SplitPlan(t, naming, o, Plan(t, o.columns)));
      && (forall j :: 0 <= j < |t.indexes| ==>
            exists k :: k in after.indexes && Fold(k) == Fold(naming.index(j)) && IsDeclaredKey(t, after.indexes[k], t.indexes[j], false))
      && (t.uniqueKey != [] ==>
            exists k :: k in after.indexes && Fold(k) == Fold(naming.unique) && IsDeclaredKey(t, after.indexes[k], t.uniqueKey, true))
      && (t.primaryKey != [] ==> after.primaryKey.Some? && IsDeclaredKey(t, after.primaryKey.value, t.primaryKey, true))
  {
    hide Fold, PlanFields, Drifts, LegalTable, ValidOptions, FoldDistinct, DistinctNaming, NamesKept, AfterPlan, SplitPlan, SameIndex,
         ExpectedIndex, IsDeclaredKey, ValidDescriptor;
    var after := AfterPlan(o, SplitPlan(t, naming, o, Plan(t, o.columns)));
    KeysSettle(t, naming, o);
    forall j | 0 <= j < |t.indexes|
      ensures exists k :: k in after.indexes && Fold(k) == Fold(naming.index(j)) && IsDeclaredKey(t, after.indexes[k], t.indexes[j], false)
    {
      var want := NewKey(naming.index(j), ExpectedIndex(t, t.indexes[j], false));
      assert Wants(t, naming, want);
      var k :| k in after.indexes && Fold(k) == Fold(want.name);
      SameIsDeclared(t, after.indexes[k], t.indexes[j], false);
    }
    if t.uniqueKey != [] {
      var want := NewKey(naming.unique, ExpectedIndex(t, t.uniqueKey, true));
      assert Wants(t, naming, want);
      var k :| k in after.indexes && Fold(k) == Fold(want.name);
      SameIsDeclared(t, after.indexes[k], t.uniqueKey, true);
    }
    if t.primaryKey != [] {
      PrimarySettles(t, naming, o);
      SameIsDeclared(t, after.primaryKey.value, t.primaryKey, true);
    }
  }

  lemma PrimarySettles(t: MessageTable, naming: Naming, o: Online)
    requires Planned(t, naming, o) && NamesKept(t, o) && t.primaryKey != []
    ensures var after := AfterPlan(o, SplitPlan(t, naming, o, Plan(t, o.columns)));
      after.primaryKey.Some? && SameIndex(after.primaryKey.value, ExpectedIndex(t, t.primaryKey, true))
  {
    hide Fold, PlanFields, LegalTable, ValidOptions, FoldDistinct, DistinctNaming, NamesKept, AfterAlter, AddedIndexes, RenameIndex,
         MissingKeys, KeysFor, Moved, OverFields, SameIndex, ExpectedIndex, ColumnDrifts, Examines, FindsIndex;
    var want := ExpectedIndex(t, t.primaryKey, true);
    var cs := Plan(t, o.columns);
    var plan := SplitPlan(t, naming, o, cs);
    if AddsPrimary(t, o) {
      SameAsItself(want);
    } else {
      assert t.primaryKey in DeclaredKeys(t);
      ExpectedIsOverFields(t, t.primaryKey, true);
      MovedIsWithin(t, o, cs, false);
      MovedIsWithin(t, o, cs, true);
      IndexStays(t, o, plan.first.columns, o.primaryKey.value, want);
      IndexStays(t, o, plan.second.columns, RenameIndex(plan.first.columns, o.primaryKey.value), want);
    }
  }

  // ---------------------------------------------------------------- planning again

  lemma {:induction false} NothingMissing(t: MessageTable, naming: Naming, o: Online, n: nat)
    requires n <= |t.indexes| && forall j :: 0 <= j < |t.indexes| ==> HasIndexNamed(o, naming.index(j))
    ensures MissingIndexes(t, naming, o, n) == []
  {
    if n > 0 {
      NothingMissing(t, naming, o, n - 1);
    }
  }

  lemma NothingToAdd(t: MessageTable, naming: Naming, o: Online)
    requires forall k :: Wants(t, naming, k) ==> HasIndexNamed(o, k.name)
    requires t.primaryKey != [] ==> o.primaryKey.Some?
    ensures SplitPlan(t, naming, o, []) == SchemaPlan(Statement([], [], None), Statement([], [], None))
  {
    hide HasIndexNamed, ExpectedIndex;
    forall j | 0 <= j < |t.indexes| ensures HasIndexNamed(o, naming.index(j)) {
      assert Wants(t, naming, NewKey(naming.index(j), ExpectedIndex(t, t.indexes[j], false)));
    }
    NothingMissing(t, naming, o, |t.indexes|);
    assert t.uniqueKey != [] ==> Wants(t, naming, NewKey(naming.unique, ExpectedIndex(t, t.uniqueKey, true)));
    assert MissingKeys(t, naming, o) == [];
  }

  lemma NoDriftLeft(t: MessageTable, naming: Naming, o: Online)
    requires forall i, n :: 0 <= i < |t.fields| && n in o.columns && Examines(o.columns, t.fields[i], n) ==> !ColumnDrifts(t, t.fields[i], o.columns[n])
    requires AsWanted(t, naming, o) && FoldUnique(o.columns)
    requires t.primaryKey != [] && o.primaryKey.Some? ==> SameIndex(o.primaryKey.value, ExpectedIndex(t, t.primaryKey, true))
    ensures !Drifts(t, naming, o)
  {
    hide Fold, ExpectedIndex, SameIndex, Examines, ColumnDrifts;
    forall i | 0 <= i < |t.fields| ensures |Candidates(o.columns, t.fields[i].name)| <= 1 {
      AtMostOneCandidate(o.columns, o.columns, t.fields[i].name);
    }
    forall j, x | 0 <= j < |t.indexes| && x in o.indexes && FindsIndex(o, naming.index(j), x)
      ensures SameIndex(o.indexes[x], ExpectedIndex(t, t.indexes[j], false))
    {
      assert Wants(t, naming, NewKey(naming.index(j), ExpectedIndex(t, t.indexes[j], false)));
    }
    assert t.uniqueKey != [] ==> Wants(t, naming, NewKey(naming.unique, ExpectedIndex(t, t.uniqueKey, true)));
  }

  /** Aligning twice: when names are kept and no auto-increment column is orphaned, an accepted plan
      runs, and planning again on what it leaves is the empty plan, or, when some unclaimed column
      carried a declared field's number, a refusal. */
  lemma AlignmentSettles(t: MessageTable, naming: Naming, o: Online, expandOnly: bool, again: bool)
    requires PlanSchema(t, naming, o, expandOnly).Ok?
    requires ValidDescriptor(t) && ValidOptions(t) && FoldDistinct(t) && DistinctNaming(t, naming) && LegalTable(o)
    requires NoOrphanAuto(t, o) && NamesKept(t, o)
    ensures PlanRuns(o, PlanSchema(t, naming, o, expandOnly).value)
    ensures var second := PlanSchema(t, naming, AfterPlan(o, PlanSchema(t, naming, o, expandOnly).value), again);
      if StrayNumber(t, o.columns) then second == Err(SchemaDrift)
      else second.Ok? && second.value.first.Empty() && second.value.second.Empty()
  {
    hide Fold, PlanFields, FoldDistinct, DistinctNaming, Drifts, PlanRuns, SplitPlan, ValidOptions, NoOrphanAuto, NameKept, PartsExist,
         AfterAlter, LegalAlter, Examines, ColumnDrifts, SameIndex, ExpectedIndex, AfterStatement, Wants, AsWanted, HasIndexNamed;
    OrdinaryPlanRuns(t, naming, o, expandOnly);
    assert Planned(t, naming, o);
    var plan := SplitPlan(t, naming, o, Plan(t, o.columns));
    var after := AfterPlan(o, plan);
    SplitKeepsColumns(t, naming, o);
    PlanIsLegal(t, o.columns);
    AlterKeepsNamesUnique(o.columns, Plan(t, o.columns));
    PlanConverges(t, o.columns, false);
    forall i, n | 0 <= i < |t.fields| && n in after.columns && Examines(after.columns, t.fields[i], n)
      ensures !ColumnDrifts(t, t.fields[i], after.columns[n])
    {
      ColumnsSettle(t, naming, o, i, n);
    }
    KeysSettle(t, naming, o);
    if t.primaryKey != [] {
      PrimarySettles(t, naming, o);
    }
    NoDriftLeft(t, naming, after);
    NothingToAdd(t, naming, after);
  }

  // ---------------------------------------------------------------- the gate for additions only

  /** Once the columns can be planned, drift is refused first; after that ExpandOnly refuses exactly
      the plans that redefine an online column in either statement. */
  lemma GateIff(t: MessageTable, naming: Naming, o: Online, expandOnly: bool)
    requires Accepted(t, o.columns) && FoldDistinct(t)
    ensures var plan := SplitPlan(t, naming, o, Plan(t, o.columns));
      PlanSchema(t, naming, o, expandOnly) ==
      if Drifts(t, naming, o) then Err(SchemaDrift)
      else if expandOnly && exists n :: n in o.columns && (Touched(plan.first.columns, n) || Touched(plan.second.columns, n))
        then Err(ExpandOnlyViolation)
      else Ok(plan)
  {
    hide Drifts, PlanFields, LegalAlter, Touched, MissingKeys, KeysFor, HasDuplicateNumbers, Moved, FoldDistinct;
    var cs := Plan(t, o.columns);
    forall n ensures Touched(cs, n) <==> Touched(Moved(t, o, cs, false), n) || Touched(Moved(t, o, cs, true), n) {
      MovedSplitsTouched(t, o, cs, n);
    }
    ExpandOnlyIff(t, o.columns);
  }

  lemma {:induction false} MovedSplitsTouched(t: MessageTable, o: Online, cs: seq<Clause>, n: string)
    ensures Touched(cs, n) <==> Touched(Moved(t, o, cs, false), n) || Touched(Moved(t, o, cs, true), n)
  {
    hide Touches, Moves;
    if cs != [] {
      var k := |cs| - 1;
      MovedSplitsTouched(t, o, cs[..k], n);
      TouchedLast(cs[..k], cs[k], n);
      assert cs == cs[..k] + [cs[k]];
      TouchedLast(Moved(t, o, cs[..k], false), cs[k], n);
      TouchedLast(Moved(t, o, cs[..k], true), cs[k], n);
    }
  }

  lemma TouchedLast(cs: seq<Clause>, c: Clause, n: string)
    ensures Touched(cs + [c], n) <==> Touched(cs, n) || Touches(c, n)
  {
    hide Touches;
    var all := cs + [c];
    assert all[|cs|] == c;
    if i :| 0 <= i < |cs| && Touches(cs[i], n) {
      assert Touches(all[i], n);
    }
  }

  /** The gate covers both statements: an accepted plan that runs leaves every online column as it is. */
  lemma GateHolds(t: MessageTable, naming: Naming, o: Online)
    requires PlanSchema(t, naming, o, true).Ok? && Planned(t, naming, o)
    requires PlanRuns(o, PlanSchema(t, naming, o, true).value)
    ensures var after := AfterPlan(o, PlanSchema(t, naming, o, true).value);
      forall n :: n in o.columns ==> n in after.columns && after.columns[n] == o.columns[n]
  {
    hide Drifts, PlanFields, LegalAlter, Touched, AfterAlter, PlanRuns, SplitPlan, LegalTable, FoldDistinct, ValidOptions;
    SplitKeepsColumns(t, naming, o);
    ExpandOnlyTouchesNothing(t, o.columns);
  }
}
