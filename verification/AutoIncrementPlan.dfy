/** The exact condition in terms a caller can look at before the plan runs, and the ordinary case in
    which it always holds. */
module AutoIncrementPlan {
  import opened Wrappers
  import opened ColumnTypes
  import opened TableDef
  import opened ColumnPlanner
  import opened AlterTable
  import opened SchemaPlan
  import opened PlanLegality
  import opened TwoStatements
  import opened PlanExecution
  import opened PlanRunsExactly

  /** A key leads the column in time: one that follows the claimed column, a missing one, or the
      missing primary key. */
  ghost predicate Supported(t: MessageTable, naming: Naming, o: Online, claim: Option<string>) {
    || (claim.Some? && Leads(o, claim.value))
    || KeyLeads(MissingKeys(t, naming, o), t.autoIncrementKey)
    || (AddsPrimary(t, o) && Fold(t.primaryKey[0]) == Fold(t.autoIncrementKey))
  }

  /** Every auto-increment column online belongs to some field. */
  ghost predicate NoOrphanAuto(t: MessageTable, o: Online) {
    forall z :: IsAuto(o.columns, z) ==> !Unclaimed(t, o.columns, z)
  }

  /** The clause goes to the second statement. */
  predicate Waits(t: MessageTable, o: Online) {
    AddsPrimary(t, o) && t.autoIncrementKey in t.primaryKey
  }

  /** No field is named like the old column. */
  ghost predicate OldNameFree(t: MessageTable, claim: Option<string>) {
    claim.Some? && Fold(claim.value) != Fold(t.autoIncrementKey) ==>
      forall g :: 0 <= g < |t.fields| ==> Fold(t.fields[g].name) != Fold(claim.value)
  }

  ghost predicate AutoSettles(t: MessageTable, naming: Naming, o: Online, i: nat)
    requires i < |t.fields|
  {
    && Supported(t, naming, o, ClaimOf(t, o.columns, i))
    && NoOrphanAuto(t, o)
    && (Waits(t, o) ==> OldNameFree(t, ClaimOf(t, o.columns, i)))
  }

  // ---------------------------------------------------------------- the parts, clause by clause

  lemma ClauseClaims(t: MessageTable, online: Columns, p: nat, i: nat, n: string)
    requires Accepted(t, online) && p < |Plan(t, online)| && i < |t.fields|
    requires ClauseOf(t, online, i) == Some(Plan(t, online)[p])
    ensures n in online ==> (Touches(Plan(t, online)[p], n) <==> ClaimOf(t, online, i) == Some(n))
    ensures ClaimOf(t, online, i).Some? ==> ClaimOf(t, online, i).value in online
  {
    hide Fold, PlanFields, ClaimOf, ClauseOf, Touches;
    if n in online {
      ClauseTouches(t, online, i, n);
    }
    if ClaimOf(t, online, i).Some? {
      ClaimIsOnline(t, online, i);
    }
  }

  lemma SupportIsLead(t: MessageTable, naming: Naming, o: Online, p: nat, i: nat)
    requires Accepted(t, o.columns) && p < |Plan(t, o.columns)| && i < |t.fields|
    requires ClauseOf(t, o.columns, i) == Some(Plan(t, o.columns)[p]) && Plan(t, o.columns)[p].column == t.autoIncrementKey
    ensures Supported(t, naming, o, ClaimOf(t, o.columns, i)) <==>
      || (exists n :: n in o.columns && Touches(Plan(t, o.columns)[p], n) && Leads(o, n))
      || KeyLeads(MissingKeys(t, naming, o), t.autoIncrementKey)
      || (AddsPrimary(t, o) && LedBy(ExpectedIndex(t, t.primaryKey, true), t.autoIncrementKey))
  {
    hide Fold, PlanFields, ClaimOf, ClauseOf, Touches, Leads, KeyLeads, MissingKeys;
    forall n | n in o.columns ensures Touches(Plan(t, o.columns)[p], n) <==> ClaimOf(t, o.columns, i) == Some(n) {
      ClauseClaims(t, o.columns, p, i, n);
    }
    ClauseClaims(t, o.columns, p, i, "");
  }

  /** The drift check has looked at every column that is kept as it is. */
  lemma KeptIsNotAuto(t: MessageTable, naming: Naming, o: Online, j: nat, z: string)
    requires PlanFields(t, o.columns, |t.fields|).Ok? && !Drifts(t, naming, o)
    requires j < |t.fields| && ClauseOf(t, o.columns, j).None? && ClaimOf(t, o.columns, j) == Some(z)
    ensures z in o.columns && (o.columns[z].autoIncrement ==> t.fields[j].name == t.autoIncrementKey)
  {
    hide Fold, PlanFields, ClaimOf, ClauseOf, Claims, Decide, TargetType, IsLegacyKey, IsKeyColumn, SameIndex, FindsIndex;
    KeptIsNamesake(t, o.columns, j);
    assert Examines(o.columns, t.fields[j], z);
    assert !ColumnDrifts(t, t.fields[j], o.columns[z]);
  }

  /** So no claimed auto-increment column stays behind: its field has a clause. */
  lemma ClaimedAutoIsTouched(t: MessageTable, naming: Naming, o: Online, i: nat, z: string)
    requires Planned(t, naming, o) && i < |t.fields|
    requires t.fields[i].name == t.autoIncrementKey && ClauseOf(t, o.columns, i).Some?
    requires IsAuto(o.columns, z)
    ensures Touched(Plan(t, o.columns), z) <==> !Unclaimed(t, o.columns, z)
  {
    hide Fold, PlanFields, ClaimOf, ClauseOf, LegalTable, ValidOptions, Unclaimed, Touched, Claims, Decide, Drifts;
    TouchedIsClaimed(t, o.columns, z);
    UnclaimedMeans(t, o.columns, z);
    forall j | 0 <= j < |t.fields| && ClaimOf(t, o.columns, j) == Some(z) ensures ClauseOf(t, o.columns, j).Some? {
      if ClauseOf(t, o.columns, j).None? {
        KeptIsNotAuto(t, naming, o, j, z);
      }
    }
  }

  lemma OrphansStayBehind(t: MessageTable, naming: Naming, o: Online, i: nat)
    requires Planned(t, naming, o) && i < |t.fields|
    requires t.fields[i].name == t.autoIncrementKey && ClauseOf(t, o.columns, i).Some?
    ensures NoOrphanAuto(t, o) <==> forall z :: IsAuto(o.columns, z) ==> Touched(Plan(t, o.columns), z)
  {
    hide Fold, LegalTable, ValidOptions, Drifts, PlanFields, IsAuto, Touched, ClauseOf, Unclaimed;
    forall z | IsAuto(o.columns, z) ensures Touched(Plan(t, o.columns), z) <==> !Unclaimed(t, o.columns, z) {
      ClaimedAutoIsTouched(t, naming, o, i, z);
    }
  }

  lemma NamesakeHasClause(t: MessageTable, online: Columns, i: nat, g: nat, c: string)
    requires Accepted(t, online) && i < |t.fields| && g < |t.fields| && g != i
    requires ClaimOf(t, online, i) == Some(c) && Fold(t.fields[g].name) == Fold(c)
    ensures ClauseOf(t, online, g).Some?
  {
    hide Fold, PlanFields, ClaimOf, ClauseOf;
    ClaimIsOnline(t, online, i);
    ClaimsDiffer(t, online, i, g);
    if ClauseOf(t, online, g).None? {
      KeptIsNamesake(t, online, g);
    }
  }

  predicate OtherField(t: MessageTable, i: nat, name: string) {
    exists g | 0 <= g < |t.fields| :: g != i && t.fields[g].name == name
  }

  predicate OtherClause(cs: seq<Clause>, p: nat, name: string) {
    exists k | 0 <= k < |cs| :: k != p && cs[k].column == name
  }

  /** Clause p is the clause of field i alone. */
  lemma ClauseHasOneField(t: MessageTable, online: Columns, p: nat, i: nat)
    requires Accepted(t, online) && FoldDistinct(t) && p < |Plan(t, online)| && i < |t.fields|
    requires ClauseOf(t, online, i) == Some(Plan(t, online)[p])
    ensures forall k :: 0 <= k < |Plan(t, online)| && k != p ==> OtherField(t, i, Plan(t, online)[k].column)
    ensures forall g :: 0 <= g < |t.fields| && g != i && ClauseOf(t, online, g).Some? ==>
      OtherClause(Plan(t, online), p, t.fields[g].name)
  {
    hide Fold, PlanFields, ClaimOf, ClauseOf, Origins, HasDuplicateNumbers;
    var cs, from := Plan(t, online), Origins(t, online, |t.fields|);
    PlanOrigins(t, online, |t.fields|);
    ClauseNamesField(t, online, i);
    ClauseNamesField(t, online, from[p]);
    SameFold(t, from[p], i);
    forall k | 0 <= k < |cs| && k != p ensures OtherField(t, i, cs[k].column) {
      ClauseNamesField(t, online, from[k]);
      assert from[k] != from[p] by {
        if k < p { assert from[k] < from[p]; } else { assert from[p] < from[k]; }
      }
      assert t.fields[from[k]].name == cs[k].column;
    }
    forall g | 0 <= g < |t.fields| && g != i && ClauseOf(t, online, g).Some? ensures OtherClause(cs, p, t.fields[g].name) {
      var k :| 0 <= k < |from| && from[k] == g;
      ClauseNamesField(t, online, g);
      assert cs[k].column == t.fields[g].name;
    }
  }

  /** The old column is in the way exactly when a field is named like it: such a field can not be kept,
      because its namesake is taken. */
  lemma FreeIsOldNameFree(t: MessageTable, o: Online, p: nat, i: nat)
    requires Accepted(t, o.columns) && FoldDistinct(t) && p < |Plan(t, o.columns)| && i < |t.fields|
    requires ClauseOf(t, o.columns, i) == Some(Plan(t, o.columns)[p]) && t.fields[i].name == t.autoIncrementKey
    ensures Free(o.columns, Plan(t, o.columns), p) <==> OldNameFree(t, ClaimOf(t, o.columns, i))
  {
    hide Fold, PlanFields, ClaimOf, ClauseOf, Claims, Decide, Touches, FoldDistinct;
    var cs, claim := Plan(t, o.columns), ClaimOf(t, o.columns, i);
    ClauseHasOneField(t, o.columns, p, i);
    forall n | n in o.columns ensures Touches(cs[p], n) <==> claim == Some(n) {
      ClauseClaims(t, o.columns, p, i, n);
    }
    ClauseClaims(t, o.columns, p, i, "");
    if Free(o.columns, cs, p) && claim.Some? {
      forall g | 0 <= g < |t.fields| && g != i ensures Fold(t.fields[g].name) != Fold(claim.value) {
        if Fold(t.fields[g].name) == Fold(claim.value) {
          NamesakeHasClause(t, o.columns, i, g, claim.value);
        }
      }
    }
    if OldNameFree(t, claim) {
      forall n, k | n in o.columns && Touches(cs[p], n) && 0 <= k < |cs| && k != p ensures Fold(cs[k].column) != Fold(n) {
        var g :| 0 <= g < |t.fields| && g != i && t.fields[g].name == cs[k].column;
        SameFold(t, g, i);
      }
    }
  }

  // ---------------------------------------------------------------- the main result

  ghost predicate AllAutoSettle(t: MessageTable, naming: Naming, o: Online)
    requires PlanFields(t, o.columns, |t.fields|).Ok?
  {
    forall i | 0 <= i < |t.fields| ::
      t.fields[i].name == t.autoIncrementKey && ClauseOf(t, o.columns, i).Some? ==> AutoSettles(t, naming, o, i)
  }

  lemma SettlesIsFits(t: MessageTable, naming: Naming, o: Online, p: nat, i: nat)
    requires Planned(t, naming, o) && p < |Plan(t, o.columns)| && i < |t.fields|
    requires ClauseOf(t, o.columns, i) == Some(Plan(t, o.columns)[p]) && t.fields[i].name == t.autoIncrementKey
    ensures Plan(t, o.columns)[p].def.autoIncrement
    ensures AutoSettles(t, naming, o, i) <==> Fits(t, naming, o, p)
  {
    hide Fold, PlanFields, ClaimOf, ClauseOf, Touches, FoldDistinct, LegalTable, Drifts, DistinctNaming, Leads, KeyLeads, MissingKeys,
         Supported, NoOrphanAuto, OldNameFree, Free, LedBy, IsAuto, Touched, AddsPrimary, ExpectedIndex, ValidOptions;
    ClauseNamesField(t, o.columns, i);
    ClauseIsAuto(t, o.columns, i);
    SupportIsLead(t, naming, o, p, i);
    OrphansStayBehind(t, naming, o, i);
    FreeIsOldNameFree(t, o, p, i);
  }

  /** Both statements of an accepted plan run, one after the other, exactly when the auto-increment
      field, if it needs a clause, settles: its column is led by a key in time, no auto-increment column
      is left without a field, and a clause that waits for the primary key leaves no name another field
      needs. */
  lemma PlanRunsIff(t: MessageTable, naming: Naming, o: Online, expandOnly: bool)
    requires PlanSchema(t, naming, o, expandOnly).Ok?
    requires ValidDescriptor(t) && ValidOptions(t) && FoldDistinct(t) && DistinctNaming(t, naming) && LegalTable(o)
    ensures PlanFields(t, o.columns, |t.fields|).Ok?
    ensures PlanRuns(o, PlanSchema(t, naming, o, expandOnly).value) <==> AllAutoSettle(t, naming, o)
  {
    hide Fold, PlanFields, ClaimOf, ClauseOf, Touches, FoldDistinct, AutoLegal, Drifts, DistinctNaming, Leads, KeyLeads, MissingKeys,
         AutoSettles, PartsExist, ValidOptions, PlanRuns, SplitPlan, Moves, Fits;
    var cs := Plan(t, o.columns);
    var from := Origins(t, o.columns, |t.fields|);
    PlanOrigins(t, o.columns, |t.fields|);
    assert Planned(t, naming, o);
    if p :| 0 <= p < |cs| && cs[p].def.autoIncrement {
      var i := from[p];
      ClauseIsAuto(t, o.columns, i);
      SettlesIsFits(t, naming, o, p, i);
      forall j | 0 <= j < |t.fields| && t.fields[j].name == t.autoIncrementKey ensures j == i {
        SameFold(t, i, j);
      }
      if Moves(t, o, cs[p]) {
        AutoMoved(t, naming, o, p);
      } else {
        AutoUnmoved(t, naming, o, p);
      }
    } else {
      NoAutoClause(t, naming, o);
      forall i | 0 <= i < |t.fields| && t.fields[i].name == t.autoIncrementKey ensures ClauseOf(t, o.columns, i).None? {
        if ClauseOf(t, o.columns, i).Some? {
          AutoFieldHasAutoClause(t, o.columns, i);
        }
      }
    }
  }

  lemma AutoFieldHasAutoClause(t: MessageTable, online: Columns, i: nat)
    requires Accepted(t, online) && ValidOptions(t) && i < |t.fields|
    requires t.fields[i].name == t.autoIncrementKey && ClauseOf(t, online, i).Some?
    ensures exists k :: 0 <= k < |Plan(t, online)| && Plan(t, online)[k].def.autoIncrement
  {
    hide Fold, PlanFields, ClauseOf, ValidOptions;
    PlanOrigins(t, online, |t.fields|);
    var k :| 0 <= k < |Plan(t, online)| && Origins(t, online, |t.fields|)[k] == i;
    ClauseIsAuto(t, online, i);
    assert Plan(t, online)[k].def.autoIncrement;
  }

  lemma NoAutoClause(t: MessageTable, naming: Naming, o: Online)
    requires Planned(t, naming, o) && OnlyAuto(Plan(t, o.columns), -1)
    ensures PlanRuns(o, SplitPlan(t, naming, o, Plan(t, o.columns)))
  {
    hide Fold, PlanFields, FoldDistinct, AutoLegal, Drifts, DistinctNaming, MissingKeys, PartsExist, ValidOptions, PlanRuns, SplitPlan,
         LegalAlter, OverFields, HasIndexNamed;
    var cs := Plan(t, o.columns);
    forall c | c in cs ensures !Moves(t, o, c) {
      var k :| 0 <= k < |cs| && cs[k] == c;
    }
    RunsUnmoved(t, naming, o);
    PlanIsLegal(t, o.columns);
    MissingKeysAreGood(t, naming, o);
    AutoLegalWithout(o, Whole(t, naming, o));
  }

  // ---------------------------------------------------------------- the ordinary case

  /** No earlier field carries the number of the column named like field i. */
  ghost predicate NameKept(t: MessageTable, o: Online, i: nat)
    requires i < |t.fields|
  {
    forall g, m | 0 <= g < i && m in o.columns ::
      Fold(m) == Fold(t.fields[i].name) ==> o.columns[m].fieldNum != t.fields[g].number
  }

  lemma KeptNameIsClaimed(t: MessageTable, o: Online, i: nat, m: string)
    requires Accepted(t, o.columns) && FoldDistinct(t) && i < |t.fields| && NameKept(t, o, i)
    requires m in o.columns && Fold(m) == Fold(t.fields[i].name)
    ensures ClaimOf(t, o.columns, i) == Some(m)
  {
    hide Fold, PlanFields, Claims;
    if ClaimOf(t, o.columns, i) != Some(m) {
      NamesakeTaken(t, o.columns, i, m);
      var g :| 0 <= g < i && ClaimOf(t, o.columns, g) == Some(m);
      ClaimsAreInjective(o.columns, t.fields);
      SameFold(t, g, i);
    }
  }

  /** Then the key the options promise does lead the column: it is online over the namesake, or it is
      missing and added. */
  lemma KeptNameIsSupported(t: MessageTable, naming: Naming, o: Online, i: nat)
    requires Planned(t, naming, o) && i < |t.fields| && t.fields[i].name == t.autoIncrementKey && NameKept(t, o, i)
    ensures Supported(t, naming, o, ClaimOf(t, o.columns, i))
  {
    hide Fold, PlanFields, ClaimOf, FoldDistinct, AutoLegal, DistinctNaming, IsKeyColumn, TargetType, ColumnDrifts, NameKept;
    var key := t.autoIncrementKey;
    assert t.fields[i] in t.fields;
    forall m: IndexMeta | PartsExist(o.columns, m) && LedBy(m, key)
      ensures ClaimOf(t, o.columns, i).Some? && LedBy(m, ClaimOf(t, o.columns, i).value)
    {
      assert Exists(o.columns, m.parts[0].name);
      var n :| n in o.columns && Fold(n) == Fold(m.parts[0].name);
      KeptNameIsClaimed(t, o, i, n);
    }
    if |t.primaryKey| > 0 && t.primaryKey[0] == key {
      if o.primaryKey.Some? {
        assert SameIndex(o.primaryKey.value, ExpectedIndex(t, t.primaryKey, true));
      }
    } else if j :| 0 <= j < |t.indexes| && |t.indexes[j]| > 0 && t.indexes[j][0] == key {
      if HasIndexNamed(o, naming.index(j)) {
        var k :| k in o.indexes && FindsIndex(o, naming.index(j), k);
        assert SameIndex(o.indexes[k], ExpectedIndex(t, t.indexes[j], false));
        assert PartsExist(o.columns, o.indexes[k]);
      } else {
        MissingIndexesAreAll(t, naming, o, |t.indexes|, j);
        MissingLeads(t, naming, o, NewKey(naming.index(j), ExpectedIndex(t, t.indexes[j], false)), key);
      }
    } else if HasIndexNamed(o, naming.unique) {
      var k :| k in o.indexes && FindsIndex(o, naming.unique, k);
      assert SameIndex(o.indexes[k], ExpectedIndex(t, t.uniqueKey, true));
      assert PartsExist(o.columns, o.indexes[k]);
    } else {
      MissingLeads(t, naming, o, NewKey(naming.unique, ExpectedIndex(t, t.uniqueKey, true)), key);
    }
  }

  lemma MissingLeads(t: MessageTable, naming: Naming, o: Online, k: NewKey, name: string)
    requires k in MissingKeys(t, naming, o) && LedBy(k.meta, name)
    ensures KeyLeads(MissingKeys(t, naming, o), name)
  {
    hide LedBy, MissingKeys;
    var i :| 0 <= i < |MissingKeys(t, naming, o)| && MissingKeys(t, naming, o)[i] == k;
  }

  /** And a column renamed to the auto-increment key is auto-increment itself, so no field is named like it. */
  lemma KeptNameFreesTheOld(t: MessageTable, naming: Naming, o: Online, i: nat)
    requires Planned(t, naming, o) && i < |t.fields| && t.fields[i].name == t.autoIncrementKey && NameKept(t, o, i)
    ensures OldNameFree(t, ClaimOf(t, o.columns, i))
  {
    hide Fold, PlanFields, Claims, FoldDistinct, LegalTable, DistinctNaming, IsKeyColumn, TargetType, NameKept, IsLegacyKey, ValidOptions,
         FindsIndex, SameIndex;
    var claim := ClaimOf(t, o.columns, i);
    if claim.Some? && Fold(claim.value) != Fold(t.autoIncrementKey) {
      var c := claim.value;
      ClaimsAreInjective(o.columns, t.fields);
      forall m | m in o.columns ensures Fold(m) != Fold(t.fields[i].name) {
        if Fold(m) == Fold(t.fields[i].name) {
          KeptNameIsClaimed(t, o, i, m);
        }
      }
      assert Candidates(o.columns, t.fields[i].name) == {};
      assert Examines(o.columns, t.fields[i], c);
      assert !ColumnDrifts(t, t.fields[i], o.columns[c]);
      forall g | 0 <= g < |t.fields| && g != i ensures Fold(t.fields[g].name) != Fold(c) {
        SameFold(t, g, i);
        assert Examines(o.columns, t.fields[g], c) ==> !ColumnDrifts(t, t.fields[g], o.columns[c]);
      }
    }
  }

  /** The ordinary case, to be read off the online columns: every accepted plan runs. */
  lemma OrdinaryPlanRuns(t: MessageTable, naming: Naming, o: Online, expandOnly: bool)
    requires PlanSchema(t, naming, o, expandOnly).Ok?
    requires ValidDescriptor(t) && ValidOptions(t) && FoldDistinct(t) && DistinctNaming(t, naming) && LegalTable(o)
    requires NoOrphanAuto(t, o)
    requires forall i :: 0 <= i < |t.fields| && t.fields[i].name == t.autoIncrementKey ==> NameKept(t, o, i)
    ensures PlanRuns(o, PlanSchema(t, naming, o, expandOnly).value)
  {
    hide Fold, PlanFields, ClaimOf, ClauseOf, FoldDistinct, AutoLegal, DistinctNaming, Drifts, PlanRuns, SplitPlan, Supported, ValidOptions,
         NoOrphanAuto, Waits, OldNameFree, PartsExist, NameKept;
    PlanRunsIff(t, naming, o, expandOnly);
    assert Planned(t, naming, o);
    forall i | 0 <= i < |t.fields| && t.fields[i].name == t.autoIncrementKey ensures AutoSettles(t, naming, o, i) {
      KeptNameIsSupported(t, naming, o, i);
      KeptNameFreesTheOld(t, naming, o, i);
    }
  }
}
