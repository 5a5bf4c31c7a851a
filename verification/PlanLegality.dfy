/** Running the two ALTER statements of a plan: indexes only over columns that exist, and at every
    moment at most one AUTO_INCREMENT column, which leads some key. */
module PlanLegality {
  import opened Wrappers
  import opened ColumnTypes
  import opened TableDef
  import opened ColumnPlanner
  import opened AlterTable
  import opened SchemaPlan

  // ---------------------------------------------------------------- what a statement does

  /** What a column is called once the clauses have run; keys follow their columns. */
  function RenamedTo(clauses: seq<Clause>, name: string): string {
    if clauses == [] then name
    else if Touches(clauses[|clauses| - 1], name) then clauses[|clauses| - 1].column
    else RenamedTo(clauses[..|clauses| - 1], name)
  }

  function RenameIndex(clauses: seq<Clause>, m: IndexMeta): (r: IndexMeta)
    ensures |r.parts| == |m.parts|
    ensures forall i :: 0 <= i < |r.parts| ==> r.parts[i].name == RenamedTo(clauses, m.parts[i].name)
  {
    m.(parts := seq(|m.parts|, i requires 0 <= i < |m.parts| =>
      KeyPart(RenamedTo(clauses, m.parts[i].name), m.parts[i].prefix)))
  }

  function AddedIndexes(keys: seq<NewKey>): map<string, IndexMeta> {
    if keys == [] then map[]
    else AddedIndexes(keys[..|keys| - 1])[keys[|keys| - 1].name := keys[|keys| - 1].meta]
  }

  function AfterStatement(o: Online, s: Statement): Online {
    Online(
      AfterAlter(o.columns, s.columns),
      (map k | k in o.indexes :: RenameIndex(s.columns, o.indexes[k])) + AddedIndexes(s.keys),
      if s.primary.Some? then s.primary
      else if o.primaryKey.Some? then Some(RenameIndex(s.columns, o.primaryKey.value)) else None)
  }

  // ---------------------------------------------------------------- what MySQL insists on

  predicate LedBy(m: IndexMeta, name: string) {
    |m.parts| > 0 && Fold(m.parts[0].name) == Fold(name)
  }

  /** Some key starts with this column. */
  predicate Leads(o: Online, name: string) {
    || (o.primaryKey.Some? && LedBy(o.primaryKey.value, name))
    || (exists k | k in o.indexes :: LedBy(o.indexes[k], name))
  }

  predicate IsAuto(cols: Columns, name: string) {
    name in cols && cols[name].autoIncrement
  }

  /** At most one auto-increment column, and it leads a key. */
  ghost predicate AutoLegal(o: Online) {
    && (forall n :: IsAuto(o.columns, n) ==> Leads(o, n))
    && (forall a, b :: IsAuto(o.columns, a) && IsAuto(o.columns, b) ==> a == b)
  }

  predicate Exists(cols: Columns, name: string) {
    exists n | n in cols :: Fold(n) == Fold(name)
  }

  predicate PartsExist(cols: Columns, m: IndexMeta) {
    |m.parts| > 0 && forall i | 0 <= i < |m.parts| :: Exists(cols, m.parts[i].name)
  }

  /** A table MySQL can hold. */
  ghost predicate LegalTable(o: Online) {
    && FoldUnique(o.columns) && AutoLegal(o)
    && (forall k :: k in o.indexes ==> PartsExist(o.columns, o.indexes[k]))
    && (o.primaryKey.Some? ==> PartsExist(o.columns, o.primaryKey.value))
  }

  ghost predicate DistinctNames(keys: seq<NewKey>) {
    forall i, j :: 0 <= i < j < |keys| ==> Fold(keys[i].name) != Fold(keys[j].name)
  }

  /** MySQL accepts this ALTER on this table. */
  ghost predicate LegalStatement(o: Online, s: Statement) {
    && LegalAlter(o.columns, s.columns)
    && (forall i :: 0 <= i < |s.keys| ==>
          PartsExist(AfterAlter(o.columns, s.columns), s.keys[i].meta) && !HasIndexNamed(o, s.keys[i].name))
    && DistinctNames(s.keys)
    && (s.primary.Some? ==> o.primaryKey.None? && PartsExist(AfterAlter(o.columns, s.columns), s.primary.value))
    && AutoLegal(AfterStatement(o, s))
  }

  /** Both statements of the plan are accepted when they run one after the other. */
  ghost predicate PlanRuns(o: Online, plan: SchemaPlan) {
    LegalStatement(o, plan.first) && LegalStatement(AfterStatement(o, plan.first), plan.second)
  }

  // ---------------------------------------------------------------- keys after a statement

  lemma {:induction false} RenamedFacts(clauses: seq<Clause>, name: string)
    ensures !Touched(clauses, name) ==> RenamedTo(clauses, name) == name
    ensures Touched(clauses, name) ==> exists i :: 0 <= i < |clauses| && Touches(clauses[i], name) && RenamedTo(clauses, name) == clauses[i].column
  {
    if clauses != [] {
      var n := |clauses| - 1;
      RenamedFacts(clauses[..n], name);
      if !Touches(clauses[n], name) && Touched(clauses[..n], name) {
        var i :| 0 <= i < n && Touches(clauses[..n][i], name) && RenamedTo(clauses[..n], name) == clauses[..n][i].column;
        assert Touches(clauses[i], name);
      }
      if Touched(clauses, name) && !Touches(clauses[n], name) {
        var i :| 0 <= i < |clauses| && Touches(clauses[i], name);
        assert clauses[..n][i] == clauses[i];
      }
    }
  }

  lemma {:induction false} AddedLookup(keys: seq<NewKey>)
    ensures forall k :: k in AddedIndexes(keys) ==> exists i :: 0 <= i < |keys| && keys[i].name == k && keys[i].meta == AddedIndexes(keys)[k]
    ensures DistinctNames(keys) ==> forall i :: 0 <= i < |keys| ==> keys[i].name in AddedIndexes(keys) && AddedIndexes(keys)[keys[i].name] == keys[i].meta
  {
    if keys != [] {
      var n := |keys| - 1;
      AddedLookup(keys[..n]);
      forall k | k in AddedIndexes(keys)
        ensures exists i :: 0 <= i < |keys| && keys[i].name == k && keys[i].meta == AddedIndexes(keys)[k]
      {
        if k == keys[n].name {
        } else {
          var i :| 0 <= i < n && keys[..n][i].name == k && keys[..n][i].meta == AddedIndexes(keys[..n])[k];
          assert keys[i].name == k;
        }
      }
    }
  }

  predicate KeyLeads(keys: seq<NewKey>, name: string) {
    exists i | 0 <= i < |keys| :: LedBy(keys[i].meta, name)
  }

  /** A key part follows its column: it reads as the resulting column's name exactly when the clause of
      that column touched it, or nothing did and it had that name already. */
  lemma PartAfter(cols: Columns, clauses: seq<Clause>, part: string, p: nat)
    requires FoldUnique(cols) && LegalAlter(cols, clauses) && Exists(cols, part) && p < |clauses|
    ensures Fold(RenamedTo(clauses, part)) == Fold(clauses[p].column) <==> Touches(clauses[p], part)
  {
    hide Fold;
    RenamedFacts(clauses, part);
    var n :| n in cols && Fold(n) == Fold(part);
    assert forall c :: c in clauses ==> (Touches(c, n) <==> Touches(c, part));
    if Touched(clauses, part) {
      var i :| 0 <= i < |clauses| && Touches(clauses[i], part) && RenamedTo(clauses, part) == clauses[i].column;
      assert Touches(clauses[i], n);
      if i != p {
        ColumnsDistinct(cols, clauses);
      }
    } else {
      assert !Touched(clauses, n);
      assert Fold(n) != Fold(clauses[p].column);
    }
  }

  lemma PartUntouched(cols: Columns, clauses: seq<Clause>, part: string, name: string)
    requires FoldUnique(cols) && LegalAlter(cols, clauses) && Exists(cols, part)
    requires name in cols && !Touched(clauses, name)
    ensures Fold(RenamedTo(clauses, part)) == Fold(name) <==> Fold(part) == Fold(name)
  {
    hide Fold;
    RenamedFacts(clauses, part);
    var n :| n in cols && Fold(n) == Fold(part);
    assert forall c :: c in clauses ==> (Touches(c, n) <==> Touches(c, part));
    if Touched(clauses, part) {
      var i :| 0 <= i < |clauses| && Touches(clauses[i], part) && RenamedTo(clauses, part) == clauses[i].column;
      assert Fold(name) != Fold(clauses[i].column);
      assert Touches(clauses[i], n);
    }
  }

  /** Which keys lead the column of clause p afterwards. */
  lemma LeadsAfterClause(o: Online, s: Statement, p: nat)
    requires LegalTable(o) && LegalAlter(o.columns, s.columns) && p < |s.columns|
    requires DistinctNames(s.keys) && forall i :: 0 <= i < |s.keys| ==> !HasIndexNamed(o, s.keys[i].name)
    requires s.primary.Some? ==> o.primaryKey.None?
    ensures Leads(AfterStatement(o, s), s.columns[p].column) <==>
      || (exists n :: n in o.columns && Touches(s.columns[p], n) && Leads(o, n))
      || KeyLeads(s.keys, s.columns[p].column)
      || (s.primary.Some? && LedBy(s.primary.value, s.columns[p].column))
  {
    hide LegalAlter, Fold, AfterAlter, RenamedTo, AddedIndexes, Touched;
    var c := s.columns[p];
    var after := AfterStatement(o, s);
    AddedLookup(s.keys);
    forall m: IndexMeta | PartsExist(o.columns, m)
      ensures LedBy(RenameIndex(s.columns, m), c.column) <==> exists n :: n in o.columns && Touches(c, n) && LedBy(m, n)
    {
      var part := m.parts[0].name;
      assert Exists(o.columns, part);
      PartAfter(o.columns, s.columns, part, p);
      var n :| n in o.columns && Fold(n) == Fold(part);
      assert Touches(c, n) <==> Touches(c, part);
    }
    if k :| k in after.indexes && LedBy(after.indexes[k], c.column) {
      if k in AddedIndexes(s.keys) {
        var i :| 0 <= i < |s.keys| && s.keys[i].name == k && s.keys[i].meta == AddedIndexes(s.keys)[k];
      } else {
        assert PartsExist(o.columns, o.indexes[k]);
      }
    }
    if n :| n in o.columns && Touches(c, n) && Leads(o, n) {
      if k :| k in o.indexes && LedBy(o.indexes[k], n) {
        assert PartsExist(o.columns, o.indexes[k]);
        OldIndexStays(o, s, k);
        assert LedBy(after.indexes[k], c.column);
      }
    }
    if i :| 0 <= i < |s.keys| && LedBy(s.keys[i].meta, c.column) {
      assert LedBy(after.indexes[s.keys[i].name], c.column);
    }
  }

  lemma OldIndexStays(o: Online, s: Statement, k: string)
    requires k in o.indexes && forall i :: 0 <= i < |s.keys| ==> !HasIndexNamed(o, s.keys[i].name)
    ensures k in AfterStatement(o, s).indexes && AfterStatement(o, s).indexes[k] == RenameIndex(s.columns, o.indexes[k])
  {
    hide AfterAlter, RenameIndex, AddedIndexes;
    AddedLookup(s.keys);
    assert HasIndexNamed(o, k);
    assert k !in AddedIndexes(s.keys);
  }

  /** Which keys lead an untouched column afterwards. */
  lemma LeadsAfterUntouched(o: Online, s: Statement, name: string)
    requires LegalTable(o) && LegalAlter(o.columns, s.columns) && name in o.columns && !Touched(s.columns, name)
    requires DistinctNames(s.keys) && forall i :: 0 <= i < |s.keys| ==> !HasIndexNamed(o, s.keys[i].name)
    requires s.primary.Some? ==> o.primaryKey.None?
    ensures Leads(AfterStatement(o, s), name) <==>
      Leads(o, name) || KeyLeads(s.keys, name) || (s.primary.Some? && LedBy(s.primary.value, name))
  {
    hide LegalAlter, Fold, AfterAlter, RenamedTo, AddedIndexes, Touched;
    var after := AfterStatement(o, s);
    AddedLookup(s.keys);
    forall m: IndexMeta | PartsExist(o.columns, m)
      ensures LedBy(RenameIndex(s.columns, m), name) <==> LedBy(m, name)
    {
      assert Exists(o.columns, m.parts[0].name);
      PartUntouched(o.columns, s.columns, m.parts[0].name, name);
    }
    if k :| k in after.indexes && LedBy(after.indexes[k], name) {
      if k in AddedIndexes(s.keys) {
        var i :| 0 <= i < |s.keys| && s.keys[i].name == k && s.keys[i].meta == AddedIndexes(s.keys)[k];
      } else {
        assert PartsExist(o.columns, o.indexes[k]);
      }
    }
    if k :| k in o.indexes && LedBy(o.indexes[k], name) {
      OldIndexStays(o, s, k);
      assert LedBy(after.indexes[k], name);
    }
    if i :| 0 <= i < |s.keys| && LedBy(s.keys[i].meta, name) {
      assert LedBy(after.indexes[s.keys[i].name], name);
    }
  }

  // ---------------------------------------------------------------- auto-increment after a statement

  /** The only clause of the list that may define an auto-increment column is number p. */
  ghost predicate OnlyAuto(clauses: seq<Clause>, p: int) {
    forall i :: 0 <= i < |clauses| && clauses[i].def.autoIncrement ==> i == p
  }

  lemma AutoColumnsAfter(cols: Columns, clauses: seq<Clause>, n: string)
    requires LegalAlter(cols, clauses)
    ensures IsAuto(AfterAlter(cols, clauses), n) <==>
      || (IsAuto(cols, n) && !Touched(clauses, n))
      || (exists i :: 0 <= i < |clauses| && clauses[i].column == n && clauses[i].def.autoIncrement)
  {
    hide LegalAlter, Fold, Touched, WrittenColumns;
    ColumnsDistinct(cols, clauses);
    WrittenLookup(clauses);
    if n in cols && !Touched(clauses, n) {
      UntouchedStays(cols, clauses, n);
    }
  }

  /** A statement without an auto-increment definition keeps the rule. */
  lemma AutoLegalWithout(o: Online, s: Statement)
    requires LegalTable(o) && LegalAlter(o.columns, s.columns) && OnlyAuto(s.columns, -1)
    requires DistinctNames(s.keys) && forall i :: 0 <= i < |s.keys| ==> !HasIndexNamed(o, s.keys[i].name)
    requires s.primary.Some? ==> o.primaryKey.None?
    ensures AutoLegal(AfterStatement(o, s))
  {
    hide LegalAlter, Fold, Touched, AfterAlter, Leads, RenameIndex;
    var after := AfterStatement(o, s);
    forall n | IsAuto(after.columns, n) ensures IsAuto(o.columns, n) && Leads(after, n) {
      AutoColumnsAfter(o.columns, s.columns, n);
      LeadsAfterUntouched(o, s, n);
    }
  }

  /** A statement that defines one: legal exactly when some key leads the column afterwards and no
      other auto-increment column is left standing. */
  lemma AutoLegalWith(o: Online, s: Statement, p: nat)
    requires LegalTable(o) && LegalAlter(o.columns, s.columns)
    requires p < |s.columns| && s.columns[p].def.autoIncrement && OnlyAuto(s.columns, p)
    requires DistinctNames(s.keys) && forall i :: 0 <= i < |s.keys| ==> !HasIndexNamed(o, s.keys[i].name)
    requires s.primary.Some? ==> o.primaryKey.None?
    ensures AutoLegal(AfterStatement(o, s)) <==>
      && (|| (exists n :: n in o.columns && Touches(s.columns[p], n) && Leads(o, n))
          || KeyLeads(s.keys, s.columns[p].column)
          || (s.primary.Some? && LedBy(s.primary.value, s.columns[p].column)))
      && (forall z :: IsAuto(o.columns, z) ==> Touched(s.columns, z))
  {
    hide LegalAlter, Fold, Touched, AfterAlter, Leads, RenameIndex, KeyLeads, LedBy;
    var after := AfterStatement(o, s);
    var name := s.columns[p].column;
    LeadsAfterClause(o, s, p);
    AutoColumnsAfter(o.columns, s.columns, name);
    assert IsAuto(after.columns, name);
    forall z | IsAuto(o.columns, z) && !Touched(s.columns, z) ensures IsAuto(after.columns, z) && z != name {
      AutoColumnsAfter(o.columns, s.columns, z);
      UntouchedIsNotWritten(o.columns, s.columns, z, p);
    }
    forall n | IsAuto(after.columns, n) && n != name ensures IsAuto(o.columns, n) && !Touched(s.columns, n) {
      AutoColumnsAfter(o.columns, s.columns, n);
    }
  }

  lemma UntouchedIsNotWritten(cols: Columns, clauses: seq<Clause>, z: string, p: nat)
    requires LegalAlter(cols, clauses) && z in cols && !Touched(clauses, z) && p < |clauses|
    ensures z != clauses[p].column
  {
    assert Fold(z) != Fold(clauses[p].column);
  }
}
