/** What an ALTER does to the columns of a table, and what the planner's clauses do when they run. */
module AlterTable {
  import opened Wrappers
  import opened ColumnTypes
  import opened TableDef
  import opened ColumnPlanner

  // ---------------------------------------------------------------- ALTER semantics

  /** The clause redefines this online column. */
  predicate Touches(c: Clause, name: string) {
    match c
    case Modify(column, _, _) => Fold(name) == Fold(column)
    case Change(old_, _, _, _) => Fold(name) == Fold(old_)
    case Add(_, _, _) => false
  }

  predicate Touched(clauses: seq<Clause>, name: string) {
    exists i | 0 <= i < |clauses| :: Touches(clauses[i], name)
  }

  /** The column information_schema reports for a definition. */
  function MetaOf(def: ColumnDef, number: nat): ColumnMeta {
    ColumnMeta(def.body, number, !def.notNull, def.default_, def.autoIncrement, def.collation)
  }

  function WrittenColumns(clauses: seq<Clause>): Columns {
    if clauses == [] then map[]
    else
      var last := clauses[|clauses| - 1];
      WrittenColumns(clauses[..|clauses| - 1])[last.column := MetaOf(last.def, last.number)]
  }

  /** All clauses of one statement apply at once to the columns the table had before. */
  function AfterAlter(online: Columns, clauses: seq<Clause>): Columns {
    (map n | n in online && !Touched(clauses, n) :: online[n]) + WrittenColumns(clauses)
  }

  /** MySQL accepts the statement: every redefined column exists, none is redefined twice, and no two
      resulting columns share a name. */
  ghost predicate LegalAlter(online: Columns, clauses: seq<Clause>) {
    && (forall i :: 0 <= i < |clauses| && !clauses[i].Add? ==> exists n :: n in online && Touches(clauses[i], n))
    && (forall i, j, n :: 0 <= i < j < |clauses| && n in online && Touches(clauses[i], n) ==> !Touches(clauses[j], n))
    && (forall i, j :: 0 <= i < j < |clauses| ==> Fold(clauses[i].column) != Fold(clauses[j].column))
    && (forall i, n :: 0 <= i < |clauses| && n in online && !Touched(clauses, n) ==> Fold(n) != Fold(clauses[i].column))
  }

  lemma {:induction false} WrittenLookup(clauses: seq<Clause>)
    requires forall i, j :: 0 <= i < j < |clauses| ==> Fold(clauses[i].column) != Fold(clauses[j].column)
    ensures forall i :: 0 <= i < |clauses| ==>
      clauses[i].column in WrittenColumns(clauses)
      && WrittenColumns(clauses)[clauses[i].column] == MetaOf(clauses[i].def, clauses[i].number)
    ensures forall n :: n in WrittenColumns(clauses) ==> exists i :: 0 <= i < |clauses| && clauses[i].column == n
  {
    hide Fold, MetaOf;
    if clauses != [] {
      var n := |clauses| - 1;
      WrittenLookup(clauses[..n]);
      forall i | 0 <= i < n ensures clauses[i].column != clauses[n].column {
      }
      forall m | m in WrittenColumns(clauses) ensures exists i :: 0 <= i < |clauses| && clauses[i].column == m {
        if m == clauses[n].column {
        } else {
          var i :| 0 <= i < n && clauses[..n][i].column == m;
          assert clauses[i].column == m;
        }
      }
    }
  }

  lemma ColumnsDistinct(online: Columns, clauses: seq<Clause>)
    requires LegalAlter(online, clauses)
    ensures forall i, j :: 0 <= i < j < |clauses| ==> Fold(clauses[i].column) != Fold(clauses[j].column)
  {
  }

  /** A legal statement leaves a table whose names are still unique up to case. */
  lemma AlterKeepsNamesUnique(online: Columns, clauses: seq<Clause>)
    requires FoldUnique(online) && LegalAlter(online, clauses)
    ensures FoldUnique(AfterAlter(online, clauses))
  {
    WrittenLookup(clauses);
    var after := AfterAlter(online, clauses);
    forall a, b | a in after && b in after && Fold(a) == Fold(b) ensures a == b {
      assert a in WrittenColumns(clauses) <==> b in WrittenColumns(clauses);
    }
  }

  // ---------------------------------------------------------------- an accepted plan, field by field

  ghost predicate Accepted(t: MessageTable, online: Columns) {
    && ValidDescriptor(t) && FoldUnique(online)
    && !HasDuplicateNumbers(online) && PlanFields(t, online, |t.fields|).Ok?
  }

  function Plan(t: MessageTable, online: Columns): seq<Clause>
    requires PlanFields(t, online, |t.fields|).Ok?
  {
    PlanFields(t, online, |t.fields|).value
  }

  lemma {:induction false} DecisionsAreOk(t: MessageTable, online: Columns, n: nat, i: nat)
    requires i < n <= |t.fields| && PlanFields(t, online, n).Ok?
    ensures PlanFields(t, online, i).Ok? && Decision(t, online, i).Ok?
  {
    if i < n - 1 {
      DecisionsAreOk(t, online, n - 1, i);
    }
  }

  /** The clause of field i, if it needs one. */
  ghost function ClauseOf(t: MessageTable, online: Columns, i: nat): Option<Clause>
    requires i < |t.fields| && PlanFields(t, online, |t.fields|).Ok?
  {
    DecisionsAreOk(t, online, |t.fields|, i);
    Decision(t, online, i).value
  }

  /** The fields whose clauses make up the plan for the first n fields, in order. */
  ghost function Origins(t: MessageTable, online: Columns, n: nat): seq<nat>
    requires n <= |t.fields| && PlanFields(t, online, |t.fields|).Ok?
  {
    if n == 0 then []
    else if ClauseOf(t, online, n - 1).Some? then Origins(t, online, n - 1) + [n - 1]
    else Origins(t, online, n - 1)
  }

  /** Clause k belongs to field o[k], in order, and every clause of the first n fields is there. */
  ghost predicate Belong(t: MessageTable, online: Columns, n: nat, o: seq<nat>, cs: seq<Clause>)
    requires n <= |t.fields| && PlanFields(t, online, |t.fields|).Ok?
  {
    && |o| == |cs|
    && (forall k :: 0 <= k < |o| ==> o[k] < n && ClauseOf(t, online, o[k]) == Some(cs[k]))
    && (forall k, l :: 0 <= k < l < |o| ==> o[k] < o[l])
    && (forall i :: 0 <= i < n && ClauseOf(t, online, i).Some? ==> exists k :: 0 <= k < |o| && o[k] == i)
  }

  lemma BelongNext(t: MessageTable, online: Columns, n: nat, o: seq<nat>, cs: seq<Clause>)
    requires n < |t.fields| && PlanFields(t, online, |t.fields|).Ok? && Belong(t, online, n, o, cs)
    ensures ClauseOf(t, online, n).None? ==> Belong(t, online, n + 1, o, cs)
    ensures ClauseOf(t, online, n).Some? ==> Belong(t, online, n + 1, o + [n], cs + [ClauseOf(t, online, n).value])
  {
    hide ClauseOf, PlanFields;
    if ClauseOf(t, online, n).Some? {
      var now := o + [n];
      forall i | 0 <= i < n + 1 && ClauseOf(t, online, i).Some? ensures exists k :: 0 <= k < |now| && now[k] == i {
        if i == n {
          assert now[|o|] == i;
        } else {
          var k :| 0 <= k < |o| && o[k] == i;
          assert now[k] == i;
        }
      }
    }
  }

  lemma {:induction false} PlanOrigins(t: MessageTable, online: Columns, n: nat)
    requires n <= |t.fields| && PlanFields(t, online, |t.fields|).Ok?
    ensures PlanFields(t, online, n).Ok?
    ensures var o, cs := Origins(t, online, n), PlanFields(t, online, n).value;
      && |o| == |cs|
      && (forall k :: 0 <= k < |o| ==> o[k] < n && ClauseOf(t, online, o[k]) == Some(cs[k]))
      && (forall k, l :: 0 <= k < l < |o| ==> o[k] < o[l])
      && (forall i :: 0 <= i < n && ClauseOf(t, online, i).Some? ==> exists k :: 0 <= k < |o| && o[k] == i)
  {
    PlanBelongs(t, online, n);
  }

  lemma {:induction false} PlanBelongs(t: MessageTable, online: Columns, n: nat)
    requires n <= |t.fields| && PlanFields(t, online, |t.fields|).Ok?
    ensures PlanFields(t, online, n).Ok? && Belong(t, online, n, Origins(t, online, n), PlanFields(t, online, n).value)
  {
    hide Decision, Belong;
    if n > 0 {
      PlanBelongs(t, online, n - 1);
      DecisionsAreOk(t, online, |t.fields|, n - 1);
      BelongNext(t, online, n - 1, Origins(t, online, n - 1), PlanFields(t, online, n - 1).value);
    } else {
      NoneBelong(t, online);
    }
  }

  lemma NoneBelong(t: MessageTable, online: Columns)
    requires PlanFields(t, online, |t.fields|).Ok?
    ensures Belong(t, online, 0, [], [])
  {
  }

  /** The column field i claims. */
  function ClaimOf(t: MessageTable, online: Columns, i: nat): Option<string>
    requires i < |t.fields|
  {
    Claims(online, t.fields)[i]
  }

  /** Field i has settled on its column: what its clause is, given what it claims. */
  lemma FieldFacts(t: MessageTable, online: Columns, i: nat)
    requires PlanFields(t, online, |t.fields|).Ok? && i < |t.fields|
    ensures var f, clause, claim := t.fields[i], ClauseOf(t, online, i), ClaimOf(t, online, i);
      var target := TargetType(t, f);
      && (claim.None? ==> clause == Some(Add(f.name, target, f.number)))
      && (claim.Some? ==>
          && claim.value in online
          && Comparable(online[claim.value].body, target.body)
          && (Fold(claim.value) == Fold(f.name) ==>
               if IsTypeMatch(online[claim.value].body, target.body) && online[claim.value].fieldNum == f.number
               then clause.None?
               else clause == Some(Modify(f.name, AlignedDef(online[claim.value], target), f.number)))
          && (Fold(claim.value) != Fold(f.name) ==>
               && online[claim.value].fieldNum == f.number
               && clause == Some(Change(claim.value, f.name, AlignedDef(online[claim.value], target), f.number))))
  {
    DecisionsAreOk(t, online, |t.fields|, i);
    ClaimAt(online, t.fields, i);
    ClaimsAreInjective(online, t.fields);
    var claim := ClaimOf(t, online, i);
    if claim.Some? {
      MatchIsTotalPreorder(online[claim.value].body, TargetType(t, t.fields[i]).body, online[claim.value].body);
    }
  }

  /** Why field i is refused: its name is ambiguous, or the column it claims is for another kind of
      content, or for the same one with another sign. */
  lemma RefusalMeans(t: MessageTable, online: Columns, i: nat)
    requires i < |t.fields|
    ensures var f, d, claim := t.fields[i], Decision(t, online, i), ClaimOf(t, online, i);
      var ambiguous := |Candidates(LeftBefore(t, online, i), f.name)| > 1;
      && (claim.Some? ==> claim.value in online)
      && (d.Ok? <==> !ambiguous && (claim.Some? ==> Comparable(online[claim.value].body, TargetType(t, f).body)))
      && (d.Err? ==> d.error == (if ambiguous then SchemaDrift
                                 else if Fold(claim.value) != Fold(f.name)
                                         && !IsRenameConvertible(online[claim.value].body, TargetType(t, f).body) then FieldNumberReused
                                 else UnsafeConversion))
  {
    ClaimAt(online, t.fields, i);
    ClaimsAreInjective(online, t.fields);
    if ClaimOf(t, online, i).Some? {
      MatchIsWidth(online[ClaimOf(t, online, i).value].body, TargetType(t, t.fields[i]).body);
    }
  }

  /** A plan is accepted exactly when numbers are unique and no field is refused; otherwise the error is
      that of the first refused field. */
  lemma {:induction false} AcceptedIff(t: MessageTable, online: Columns, n: nat)
    requires n <= |t.fields|
    ensures PlanFields(t, online, n).Ok? <==> forall i :: 0 <= i < n ==> Decision(t, online, i).Ok?
    ensures PlanFields(t, online, n).Err? ==> exists i :: FirstRefused(t, online, n, i, PlanFields(t, online, n).error)
  {
    hide Decision;
    if n > 0 {
      AcceptedIff(t, online, n - 1);
      if PlanFields(t, online, n - 1).Err? {
        var e := PlanFields(t, online, n - 1).error;
        var i :| FirstRefused(t, online, n - 1, i, e);
        assert FirstRefused(t, online, n, i, e);
      } else if Decision(t, online, n - 1).Err? {
        assert FirstRefused(t, online, n, n - 1, Decision(t, online, n - 1).error);
      }
    }
  }

  ghost predicate FirstRefused(t: MessageTable, online: Columns, n: nat, i: nat, e: PlanError)
    requires n <= |t.fields|
  {
    i < n && Decision(t, online, i) == Err(e) && forall j :: 0 <= j < i ==> Decision(t, online, j).Ok?
  }

  /** The columns no field claims. */
  predicate Unclaimed(t: MessageTable, online: Columns, name: string) {
    name in online && Some(name) !in Claims(online, t.fields)
  }

  /** A clause touches exactly the column its field claims. */
  lemma ClauseTouches(t: MessageTable, online: Columns, i: nat, name: string)
    requires Accepted(t, online) && name in online
    requires i < |t.fields| && ClauseOf(t, online, i).Some?
    ensures Touches(ClauseOf(t, online, i).value, name) <==> ClaimOf(t, online, i) == Some(name)
  {
    hide Decide, Claims, Left, TargetType, AlignedType, PlanFields, Fold, HasDuplicateNumbers;
    FieldFacts(t, online, i);
  }

  /** A column is redefined exactly when the field claiming it has a clause. */
  lemma TouchedIsClaimed(t: MessageTable, online: Columns, name: string)
    requires Accepted(t, online) && name in online
    ensures Touched(Plan(t, online), name) <==>
      exists i :: 0 <= i < |t.fields| && ClaimOf(t, online, i) == Some(name) && ClauseOf(t, online, i).Some?
  {
    hide Decide, Claims, Left, TargetType, AlignedType, PlanFields, Fold, HasDuplicateNumbers, Origins, Touches, ClaimOf;
    PlanOrigins(t, online, |t.fields|);
    var o, cs := Origins(t, online, |t.fields|), Plan(t, online);
    if k :| 0 <= k < |cs| && Touches(cs[k], name) {
      ClauseTouches(t, online, o[k], name);
    }
    if i :| 0 <= i < |t.fields| && ClaimOf(t, online, i) == Some(name) && ClauseOf(t, online, i).Some? {
      ClauseTouches(t, online, i, name);
      var k :| 0 <= k < |o| && o[k] == i;
      assert Touches(cs[k], name);
    }
  }

  /** The column field i ends up with. */
  ghost function FinalName(t: MessageTable, online: Columns, i: nat): string
    requires i < |t.fields| && PlanFields(t, online, |t.fields|).Ok?
  {
    FieldFacts(t, online, i);
    if ClauseOf(t, online, i).None? then ClaimOf(t, online, i).value else t.fields[i].name
  }

  ghost function FinalMeta(t: MessageTable, online: Columns, i: nat): ColumnMeta
    requires i < |t.fields| && PlanFields(t, online, |t.fields|).Ok?
  {
    FieldFacts(t, online, i);
    match ClauseOf(t, online, i)
    case None => online[ClaimOf(t, online, i).value]
    case Some(clause) => MetaOf(clause.def, clause.number)
  }

  /** Whatever a field ends up with has its name and number and holds both the declared type and the
      type its column had. */
  lemma FinalColumnFits(t: MessageTable, online: Columns, i: nat)
    requires i < |t.fields| && PlanFields(t, online, |t.fields|).Ok?
    ensures Fold(FinalName(t, online, i)) == Fold(t.fields[i].name)
    ensures FinalMeta(t, online, i).fieldNum == t.fields[i].number
    ensures IsTypeMatch(FinalMeta(t, online, i).body, TargetType(t, t.fields[i]).body)
    ensures ClaimOf(t, online, i).Some? ==>
      ClaimOf(t, online, i).value in online
      && IsTypeMatch(FinalMeta(t, online, i).body, online[ClaimOf(t, online, i).value].body)
  {
    FieldFacts(t, online, i);
    var target := TargetType(t, t.fields[i]).body;
    MatchIsTotalPreorder(target, target, target);
    if ClaimOf(t, online, i).Some? {
      var c := online[ClaimOf(t, online, i).value].body;
      MatchIsTotalPreorder(c, c, c);
      AlignedIsJoin(c, target, c);
    }
  }

  // ---------------------------------------------------------------- legality, both directions

  lemma ClauseNamesField(t: MessageTable, online: Columns, i: nat)
    requires i < |t.fields| && PlanFields(t, online, |t.fields|).Ok? && ClauseOf(t, online, i).Some?
    ensures ClauseOf(t, online, i).value.column == t.fields[i].name
    ensures ClauseOf(t, online, i).value.Add? <==> ClaimOf(t, online, i).None?
  {
    FieldFacts(t, online, i);
  }

  /** If field i does not claim its namesake, an earlier field has claimed it. */
  lemma NamesakeTaken(t: MessageTable, online: Columns, i: nat, m: string)
    requires FoldUnique(online) && i < |t.fields|
    requires m in online && Fold(m) == Fold(t.fields[i].name)
    requires ClaimOf(t, online, i) != Some(m)
    ensures exists j :: 0 <= j < i && ClaimOf(t, online, j) == Some(m)
  {
    hide Claims, Fold;
    ClaimAt(online, t.fields, i);
    ClaimsPrefix(online, t.fields, i);
    var before := Claims(online, t.fields[..i]);
    NamesakeIsClaimed(online, Left(online, before), t.fields[i], m);
    assert m !in Left(online, before);
    var j :| 0 <= j < |before| && before[j] == Some(m);
    assert Claims(online, t.fields)[..i][j] == before[j];
    assert ClaimOf(t, online, j) == Some(m);
  }

  lemma NamesakeIsClaimed(online: Columns, left: Columns, f: Field, m: string)
    requires FoldUnique(online) && Fold(m) == Fold(f.name)
    requires forall n :: n in left ==> n in online
    ensures m in left ==> Claim(online, left, f) == Some(m)
  {
    if m in left {
      assert Candidates(left, f.name) == {m};
    }
  }

  /** A field with a clause never leaves its namesake column behind: either it claims it, or an earlier
      field does and redefines it under another name. */
  lemma NamesakeIsTouched(t: MessageTable, online: Columns, i: nat, m: string)
    requires Accepted(t, online) && FoldDistinct(t)
    requires i < |t.fields| && ClauseOf(t, online, i).Some?
    requires m in online && Fold(m) == Fold(t.fields[i].name)
    ensures Touched(Plan(t, online), m)
  {
    hide Decide, Claims, Left, TargetType, AlignedType, PlanFields, Fold, HasDuplicateNumbers;
    TouchedIsClaimed(t, online, m);
    if ClaimOf(t, online, i) != Some(m) {
      NamesakeTaken(t, online, i, m);
      var j :| 0 <= j < i && ClaimOf(t, online, j) == Some(m);
      FieldFacts(t, online, j);
      SameFold(t, i, j);
    }
  }

  lemma PlanIsLegal(t: MessageTable, online: Columns)
    requires Accepted(t, online) && FoldDistinct(t)
    ensures LegalAlter(online, Plan(t, online))
  {
    hide Decide, Claims, Left, TargetType, AlignedType, PlanFields, Fold, HasDuplicateNumbers, Origins, Touches, ClaimOf, Touched, ClauseOf, FoldDistinct;
    var n := |t.fields|;
    var o, cs := Origins(t, online, n), Plan(t, online);
    PlanOrigins(t, online, n);
    forall k | 0 <= k < |cs| ensures cs[k].column == t.fields[o[k]].name {
      ClauseNamesField(t, online, o[k]);
    }
    forall k | 0 <= k < |cs| && !cs[k].Add? ensures exists m :: m in online && Touches(cs[k], m) {
      ClauseNamesField(t, online, o[k]);
      ClaimIsOnline(t, online, o[k]);
      ClauseTouches(t, online, o[k], ClaimOf(t, online, o[k]).value);
    }
    forall k, l, m | 0 <= k < l < |cs| && m in online && Touches(cs[k], m) ensures !Touches(cs[l], m) {
      ClauseTouches(t, online, o[k], m);
      ClauseTouches(t, online, o[l], m);
      ClaimsDiffer(t, online, o[k], o[l]);
    }
    forall k, m | 0 <= k < |cs| && m in online && !Touched(cs, m) ensures Fold(m) != Fold(cs[k].column) {
      if Fold(m) == Fold(cs[k].column) {
        NamesakeIsTouched(t, online, o[k], m);
      }
    }
    forall k, l | 0 <= k < l < |cs| ensures Fold(cs[k].column) != Fold(cs[l].column) {
      SameFold(t, o[k], o[l]);
    }
  }

  lemma ClaimIsOnline(t: MessageTable, online: Columns, i: nat)
    requires i < |t.fields| && ClaimOf(t, online, i).Some?
    ensures ClaimOf(t, online, i).value in online
  {
    ClaimsAreInjective(online, t.fields);
  }

  lemma ClaimsDiffer(t: MessageTable, online: Columns, i: nat, j: nat)
    requires i < |t.fields| && j < |t.fields| && i != j && ClaimOf(t, online, i).Some?
    ensures ClaimOf(t, online, i) != ClaimOf(t, online, j)
  {
    ClaimsAreInjective(online, t.fields);
  }

  /** The accepted plan runs exactly when the declared names are distinct up to case. */
  lemma LegalIffNamesDistinct(t: MessageTable, online: Columns)
    requires Accepted(t, online)
    ensures LegalAlter(online, Plan(t, online)) <==> FoldDistinct(t)
  {
    hide LegalAlter;
    if FoldDistinct(t) {
      PlanIsLegal(t, online);
    } else {
      var i, j :| 0 <= i < j < |t.fields| && Fold(t.fields[i].name) == Fold(t.fields[j].name);
      CollidingNames(t, online, i, j);
    }
  }

  lemma CollidingNames(t: MessageTable, online: Columns, i: nat, j: nat)
    requires Accepted(t, online) && i < j < |t.fields| && Fold(t.fields[i].name) == Fold(t.fields[j].name)
    ensures !LegalAlter(online, Plan(t, online))
  {
    hide Decide, Claims, Left, TargetType, AlignedType, PlanFields, Fold, HasDuplicateNumbers, Origins, Touches, ClaimOf;
    var o, cs := Origins(t, online, |t.fields|), Plan(t, online);
    PlanOrigins(t, online, |t.fields|);
    if ClauseOf(t, online, i).Some? && ClauseOf(t, online, j).Some? {
      var k :| 0 <= k < |o| && o[k] == i;
      var l :| 0 <= l < |o| && o[l] == j;
      ClauseNamesField(t, online, i);
      ClauseNamesField(t, online, j);
      assert Fold(cs[k].column) == Fold(cs[l].column);
    } else if ClauseOf(t, online, i).None? {
      KeptBlocks(t, online, i, j);
    } else {
      KeptBlocks(t, online, j, i);
    }
  }

  /** A field kept as it is and another field of the same name up to case: the second one's clause
      writes a name the table already has. */
  lemma KeptBlocks(t: MessageTable, online: Columns, kept: nat, other: nat)
    requires Accepted(t, online) && kept < |t.fields| && other < |t.fields| && kept != other
    requires Fold(t.fields[kept].name) == Fold(t.fields[other].name) && ClauseOf(t, online, kept).None?
    ensures !LegalAlter(online, Plan(t, online))
  {
    hide Decide, Claims, Left, TargetType, AlignedType, PlanFields, Fold, HasDuplicateNumbers, Origins, Touches, ClaimOf;
    var o, cs := Origins(t, online, |t.fields|), Plan(t, online);
    PlanOrigins(t, online, |t.fields|);
    KeptIsNamesake(t, online, kept);
    var c := ClaimOf(t, online, kept).value;
    ClaimsDiffer(t, online, kept, other);
    if ClauseOf(t, online, other).None? {
      KeptIsNamesake(t, online, other);
    } else {
      ClauseNamesField(t, online, other);
      KeptIsUntouched(t, online, kept);
      var k :| 0 <= k < |o| && o[k] == other;
      assert Fold(cs[k].column) == Fold(c);
    }
  }

  lemma KeptIsNamesake(t: MessageTable, online: Columns, i: nat)
    requires PlanFields(t, online, |t.fields|).Ok? && i < |t.fields| && ClauseOf(t, online, i).None?
    ensures ClaimOf(t, online, i).Some? && ClaimOf(t, online, i).value in online
    ensures Fold(ClaimOf(t, online, i).value) == Fold(t.fields[i].name)
  {
    FieldFacts(t, online, i);
  }

  lemma KeptIsUntouched(t: MessageTable, online: Columns, i: nat)
    requires Accepted(t, online) && i < |t.fields| && ClauseOf(t, online, i).None?
    ensures ClaimOf(t, online, i).Some? && ClaimOf(t, online, i).value in online
    ensures !Touched(Plan(t, online), ClaimOf(t, online, i).value)
  {
    hide Decide, Claims, Left, TargetType, AlignedType, PlanFields, Fold, HasDuplicateNumbers, ClaimOf, Touched;
    KeptIsNamesake(t, online, i);
    var c := ClaimOf(t, online, i).value;
    TouchedIsClaimed(t, online, c);
    if j :| 0 <= j < |t.fields| && ClaimOf(t, online, j) == Some(c) && ClauseOf(t, online, j).Some? {
      ClaimsDiffer(t, online, i, j);
    }
  }

  // ---------------------------------------------------------------- the table afterwards

  lemma UnclaimedMeans(t: MessageTable, online: Columns, name: string)
    requires name in online
    ensures Unclaimed(t, online, name) <==> !exists i :: 0 <= i < |t.fields| && ClaimOf(t, online, i) == Some(name)
  {
    hide Claims;
    var claims := Claims(online, t.fields);
    assert forall i :: 0 <= i < |claims| ==> ClaimOf(t, online, i) == claims[i];
    assert Unclaimed(t, online, name) <==> Some(name) !in claims;
  }

  /** After the statement every field has its column, as settled. */
  lemma FieldApplied(t: MessageTable, online: Columns, i: nat)
    requires Accepted(t, online) && FoldDistinct(t) && i < |t.fields|
    ensures var after := AfterAlter(online, Plan(t, online));
      FinalName(t, online, i) in after && after[FinalName(t, online, i)] == FinalMeta(t, online, i)
  {
    hide Decide, Claims, Left, TargetType, AlignedType, PlanFields, Fold, HasDuplicateNumbers, Origins, Touches, ClaimOf, WrittenColumns;
    var cs, o := Plan(t, online), Origins(t, online, |t.fields|);
    PlanOrigins(t, online, |t.fields|);
    PlanIsLegal(t, online);
    WrittenLookup(cs);
    if ClauseOf(t, online, i).Some? {
      ClauseNamesField(t, online, i);
      var k :| 0 <= k < |o| && o[k] == i;
      assert cs[k].column == t.fields[i].name;
    } else {
      KeptIsNamesake(t, online, i);
      KeptIsUntouched(t, online, i);
      UntouchedStays(online, cs, ClaimOf(t, online, i).value);
    }
  }

  lemma UntouchedStays(online: Columns, clauses: seq<Clause>, n: string)
    requires LegalAlter(online, clauses) && n in online && !Touched(clauses, n)
    ensures n in AfterAlter(online, clauses) && AfterAlter(online, clauses)[n] == online[n]
    ensures n !in WrittenColumns(clauses)
  {
    hide WrittenColumns, Fold, Touched;
    WrittenLookup(clauses);
  }

  lemma UnclaimedStays(t: MessageTable, online: Columns, n: string)
    requires Accepted(t, online) && FoldDistinct(t) && Unclaimed(t, online, n)
    ensures var after := AfterAlter(online, Plan(t, online)); n in after && after[n] == online[n]
  {
    hide Decide, Claims, Left, TargetType, AlignedType, PlanFields, Fold, HasDuplicateNumbers, WrittenColumns, Touched, LegalAlter, AfterAlter;
    PlanIsLegal(t, online);
    TouchedIsClaimed(t, online, n);
    UnclaimedMeans(t, online, n);
    UntouchedStays(online, Plan(t, online), n);
  }

  lemma FinalNameIs(t: MessageTable, online: Columns, i: nat)
    requires i < |t.fields| && PlanFields(t, online, |t.fields|).Ok?
    ensures ClauseOf(t, online, i).Some? ==> FinalName(t, online, i) == t.fields[i].name
    ensures ClauseOf(t, online, i).None? && ClaimOf(t, online, i).Some? ==> FinalName(t, online, i) == ClaimOf(t, online, i).value
  {
  }

  /** And there is nothing else but the unclaimed columns. */
  lemma NothingElse(t: MessageTable, online: Columns, n: string)
    requires Accepted(t, online) && FoldDistinct(t)
    requires n in AfterAlter(online, Plan(t, online))
    ensures Unclaimed(t, online, n) || exists i :: 0 <= i < |t.fields| && n == FinalName(t, online, i)
  {
    hide Decide, Claims, Left, TargetType, AlignedType, PlanFields, Fold, HasDuplicateNumbers, Origins, WrittenColumns, Touches, LegalAlter,
         FoldDistinct, ClauseOf, FinalName, Unclaimed, ClaimOf;
    var cs, o := Plan(t, online), Origins(t, online, |t.fields|);
    PlanOrigins(t, online, |t.fields|);
    PlanIsLegal(t, online);
    if n in WrittenColumns(cs) {
      ColumnsDistinct(online, cs);
      WrittenLookup(cs);
      var k :| 0 <= k < |cs| && cs[k].column == n;
      ClauseNamesField(t, online, o[k]);
      FinalNameIs(t, online, o[k]);
    } else if !Unclaimed(t, online, n) {
      UnclaimedMeans(t, online, n);
      var i :| 0 <= i < |t.fields| && ClaimOf(t, online, i) == Some(n);
      TouchedIsClaimed(t, online, n);
      FinalNameIs(t, online, i);
    }
  }

  // ---------------------------------------------------------------- nothing is lost

  /** Where an online column is after the plan ran. */
  ghost function NameAfter(t: MessageTable, online: Columns, name: string): string
    requires Accepted(t, online) && name in online
  {
    if i :| 0 <= i < |t.fields| && ClaimOf(t, online, i) == Some(name) then FinalName(t, online, i) else name
  }

  lemma NameAfterClaimed(t: MessageTable, online: Columns, name: string, i: nat)
    requires Accepted(t, online) && name in online
    requires i < |t.fields| && ClaimOf(t, online, i) == Some(name)
    ensures NameAfter(t, online, name) == FinalName(t, online, i)
  {
    hide Decide, Claims, Left, TargetType, AlignedType, PlanFields, Fold, HasDuplicateNumbers, ClaimOf, FinalName;
    var j :| 0 <= j < |t.fields| && ClaimOf(t, online, j) == Some(name)
             && NameAfter(t, online, name) == FinalName(t, online, j);
    if i != j {
      ClaimsDiffer(t, online, i, j);
    }
  }

  lemma NameAfterUnclaimed(t: MessageTable, online: Columns, name: string)
    requires Accepted(t, online) && name in online
    ensures Unclaimed(t, online, name) <==> !exists i :: 0 <= i < |t.fields| && ClaimOf(t, online, i) == Some(name)
    ensures Unclaimed(t, online, name) ==> NameAfter(t, online, name) == name
  {
    hide Decide, Claims, Left, TargetType, AlignedType, PlanFields, Fold, HasDuplicateNumbers, FinalName, ClaimOf, Unclaimed;
    UnclaimedMeans(t, online, name);
  }

  /** One column's fate: it is still there, and no narrower. */
  lemma ColumnSurvives(t: MessageTable, online: Columns, n: string)
    requires Accepted(t, online) && FoldDistinct(t) && n in online
    ensures var after := AfterAlter(online, Plan(t, online));
      && NameAfter(t, online, n) in after
      && IsTypeMatch(after[NameAfter(t, online, n)].body, online[n].body)
      && (Unclaimed(t, online, n) ==> NameAfter(t, online, n) == n && after[n] == online[n])
  {
    hide Decide, Claims, Left, TargetType, AlignedType, PlanFields, Fold, HasDuplicateNumbers, FinalName, FinalMeta, ClaimOf, AfterAlter,
         NameAfter, Unclaimed, IsTypeMatch;
    NameAfterUnclaimed(t, online, n);
    if Unclaimed(t, online, n) {
      UnclaimedStays(t, online, n);
      MatchIsTotalPreorder(online[n].body, online[n].body, online[n].body);
    } else {
      var i :| 0 <= i < |t.fields| && ClaimOf(t, online, i) == Some(n);
      NameAfterClaimed(t, online, n, i);
      FinalColumnFits(t, online, i);
      FieldApplied(t, online, i);
    }
  }

  /** Conservation: every original column still exists under its old or its new name, no two share
      one, none is narrower than before, and a column no field claims is exactly as it was. */
  lemma NothingIsLost(t: MessageTable, online: Columns)
    requires Accepted(t, online) && FoldDistinct(t)
    ensures var after := AfterAlter(online, Plan(t, online));
      && FoldUnique(after)
      && (forall n :: n in online ==>
            && NameAfter(t, online, n) in after
            && IsTypeMatch(after[NameAfter(t, online, n)].body, online[n].body)
            && (Unclaimed(t, online, n) ==> NameAfter(t, online, n) == n && after[n] == online[n]))
      && (forall a, b :: a in online && b in online && a != b ==>
            Fold(NameAfter(t, online, a)) != Fold(NameAfter(t, online, b)))
      && |after| >= |online|
  {
    hide Decide, Claims, Left, TargetType, AlignedType, PlanFields, Fold, HasDuplicateNumbers, AfterAlter,
         NameAfter, Unclaimed, IsTypeMatch, LegalAlter;
    var after := AfterAlter(online, Plan(t, online));
    PlanIsLegal(t, online);
    AlterKeepsNamesUnique(online, Plan(t, online));
    forall n | n in online
      ensures
        && NameAfter(t, online, n) in after
        && IsTypeMatch(after[NameAfter(t, online, n)].body, online[n].body)
        && (Unclaimed(t, online, n) ==> NameAfter(t, online, n) == n && after[n] == online[n])
    {
      ColumnSurvives(t, online, n);
    }
    forall a, b | a in online && b in online && a != b
      ensures Fold(NameAfter(t, online, a)) != Fold(NameAfter(t, online, b))
    {
      ImagesDiffer(t, online, a, b);
    }
    ImageCount(online.Keys, after.Keys, n requires n in online => NameAfter(t, online, n));
  }

  lemma ImagesDiffer(t: MessageTable, online: Columns, a: string, b: string)
    requires Accepted(t, online) && FoldDistinct(t) && a in online && b in online && a != b
    ensures Fold(NameAfter(t, online, a)) != Fold(NameAfter(t, online, b))
  {
    hide Decide, Claims, Left, TargetType, AlignedType, PlanFields, Fold, HasDuplicateNumbers, FinalName, ClaimOf,
         NameAfter, Unclaimed, IsTypeMatch;
    NameAfterUnclaimed(t, online, a);
    NameAfterUnclaimed(t, online, b);
    if Unclaimed(t, online, a) {
      if !Unclaimed(t, online, b) {
        UnclaimedApart(t, online, a, b);
      }
    } else if Unclaimed(t, online, b) {
      UnclaimedApart(t, online, b, a);
    } else {
      var i :| 0 <= i < |t.fields| && ClaimOf(t, online, i) == Some(a);
      var j :| 0 <= j < |t.fields| && ClaimOf(t, online, j) == Some(b);
      NameAfterClaimed(t, online, a, i);
      NameAfterClaimed(t, online, b, j);
      FinalColumnFits(t, online, i);
      FinalColumnFits(t, online, j);
      SameFold(t, i, j);
    }
  }

  /** An unclaimed column is no field's namesake. */
  lemma UnclaimedIsNoField(t: MessageTable, online: Columns, n: string, i: nat)
    requires Accepted(t, online) && Unclaimed(t, online, n) && i < |t.fields|
    ensures Fold(n) != Fold(t.fields[i].name)
  {
    hide Decide, Claims, Left, TargetType, AlignedType, PlanFields, Fold, HasDuplicateNumbers, ClaimOf;
    NameAfterUnclaimed(t, online, n);
    if Fold(n) == Fold(t.fields[i].name) {
      assert ClaimOf(t, online, i) != Some(n);
      NamesakeTaken(t, online, i, n);
    }
  }

  lemma UnclaimedApart(t: MessageTable, online: Columns, free: string, taken: string)
    requires Accepted(t, online) && FoldDistinct(t) && free in online && taken in online
    requires Unclaimed(t, online, free) && !Unclaimed(t, online, taken)
    ensures Fold(NameAfter(t, online, taken)) != Fold(free)
  {
    hide Decide, Claims, Left, TargetType, AlignedType, PlanFields, Fold, HasDuplicateNumbers, FinalName, ClaimOf,
         NameAfter, Unclaimed, IsTypeMatch;
    NameAfterUnclaimed(t, online, taken);
    var i :| 0 <= i < |t.fields| && ClaimOf(t, online, i) == Some(taken);
    NameAfterClaimed(t, online, taken, i);
    FinalColumnFits(t, online, i);
    UnclaimedIsNoField(t, online, free, i);
  }

  lemma {:induction false} ImageCount(from: set<string>, to: set<string>, image: string --> string)
    requires forall n :: n in from ==> image.requires(n) && image(n) in to
    requires forall a, b :: a in from && b in from && a != b ==> image(a) != image(b)
    ensures |from| <= |to|
  {
    if from != {} {
      var n :| n in from;
      ImageCount(from - {n}, to - {image(n)}, image);
    }
  }
}
