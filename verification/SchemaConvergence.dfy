/** Planning again after the plan has run. */
module SchemaConvergence {
  import opened Wrappers
  import opened ColumnTypes
  import opened TableDef
  import opened ColumnPlanner
  import opened AlterTable

  /** An online column no field claims although it carries the number of a declared field. */
  ghost predicate StrayNumber(t: MessageTable, online: Columns) {
    exists d, i :: Stray(t, online, d, i)
  }

  ghost predicate Stray(t: MessageTable, online: Columns, d: string, i: int) {
    Unclaimed(t, online, d) && 0 <= i < |t.fields| && online[d].fieldNum == t.fields[i].number
  }

  /** Where every field has a namesake column, every field claims it. */
  lemma {:induction false} NamesakesAreClaimed(t: MessageTable, cols: Columns, names: seq<string>, i: nat)
    requires FoldUnique(cols) && FoldDistinct(t) && |names| == |t.fields|
    requires forall j :: 0 <= j < |names| ==> names[j] in cols && Fold(names[j]) == Fold(t.fields[j].name)
    requires i < |t.fields|
    ensures ClaimOf(t, cols, i) == Some(names[i])
    decreases i
  {
    hide Claims, Fold;
    if ClaimOf(t, cols, i) != Some(names[i]) {
      NamesakeTaken(t, cols, i, names[i]);
      var j :| 0 <= j < i && ClaimOf(t, cols, j) == Some(names[i]);
      NamesakesAreClaimed(t, cols, names, j);
      SameFold(t, i, j);
    }
  }

  ghost function FinalNames(t: MessageTable, online: Columns): (names: seq<string>)
    requires PlanFields(t, online, |t.fields|).Ok?
    ensures |names| == |t.fields|
    ensures forall i :: 0 <= i < |names| ==> names[i] == FinalName(t, online, i)
  {
    seq(|t.fields|, i requires 0 <= i < |t.fields| => FinalName(t, online, i))
  }

  /** On the table the plan left, every field finds its column in order and asks for nothing. */
  lemma FieldIsSettled(t: MessageTable, online: Columns, i: nat)
    requires Accepted(t, online) && FoldDistinct(t) && i < |t.fields|
    ensures Decision(t, AfterAlter(online, Plan(t, online)), i) == Ok(None)
  {
    hide Claims, Fold, PlanFields, TargetType, FinalName, FinalMeta, AfterAlter, HasDuplicateNumbers, IsTypeMatch, Claim, LegalAlter;
    var after := AfterAlter(online, Plan(t, online));
    PlanIsLegal(t, online);
    AlterKeepsNamesUnique(online, Plan(t, online));
    var names := FinalNames(t, online);
    forall j | 0 <= j < |names| ensures names[j] in after && Fold(names[j]) == Fold(t.fields[j].name) {
      FieldApplied(t, online, j);
      FinalColumnFits(t, online, j);
    }
    NamesakesAreClaimed(t, after, names, i);
    FieldApplied(t, online, i);
    FinalColumnFits(t, online, i);
    ClaimAt(after, t.fields, i);
    AtMostOneCandidate(after, LeftBefore(t, after, i), t.fields[i].name);
  }

  lemma AtMostOneCandidate(cols: Columns, left: Columns, name: string)
    requires FoldUnique(cols) && forall n :: n in left ==> n in cols
    ensures |Candidates(left, name)| <= 1
  {
    var named := Candidates(left, name);
    if named != {} {
      var c :| c in named;
      assert named == {c};
    }
  }

  lemma {:induction false} NothingToPlan(t: MessageTable, cols: Columns, n: nat)
    requires n <= |t.fields| && forall i :: 0 <= i < |t.fields| ==> Decision(t, cols, i) == Ok(None)
    ensures PlanFields(t, cols, n) == Ok([])
  {
    hide Decision;
    if n > 0 {
      NothingToPlan(t, cols, n - 1);
    }
  }

  /** Two columns of the resulting table share a number exactly when an unclaimed column already
      carried the number of a declared field. */
  lemma DuplicateNumbersAfter(t: MessageTable, online: Columns)
    requires Accepted(t, online) && FoldDistinct(t)
    ensures HasDuplicateNumbers(AfterAlter(online, Plan(t, online))) <==> StrayNumber(t, online)
  {
    hide Claims, Fold, PlanFields, TargetType, FinalName, FinalMeta, AfterAlter, IsTypeMatch, Claim, LegalAlter, Unclaimed, Decide;
    var after := AfterAlter(online, Plan(t, online));
    if d, i :| Stray(t, online, d, i) {
      UnclaimedStays(t, online, d);
      FieldApplied(t, online, i);
      FinalColumnFits(t, online, i);
      UnclaimedIsNoField(t, online, d, i);
      assert t.fields[i] in t.fields;
      assert d in after && FinalName(t, online, i) in after && d != FinalName(t, online, i);
    }
    if HasDuplicateNumbers(after) {
      var a, b :| a in after && b in after && a != b && after[a].fieldNum == after[b].fieldNum != 0;
      if !Unclaimed(t, online, a) {
        DuplicateIsStray(t, online, a, b);
      } else if !Unclaimed(t, online, b) {
        DuplicateIsStray(t, online, b, a);
      } else {
        UnclaimedStays(t, online, a);
        UnclaimedStays(t, online, b);
        UnclaimedIsOnline(t, online, a);
        UnclaimedIsOnline(t, online, b);
      }
    }
  }

  lemma UnclaimedIsOnline(t: MessageTable, online: Columns, n: string)
    requires Unclaimed(t, online, n)
    ensures n in online
  {
  }

  lemma DuplicateIsStray(t: MessageTable, online: Columns, a: string, b: string)
    requires Accepted(t, online) && FoldDistinct(t)
    requires var after := AfterAlter(online, Plan(t, online));
      a in after && b in after && a != b && after[a].fieldNum == after[b].fieldNum
    requires !Unclaimed(t, online, a)
    ensures StrayNumber(t, online)
  {
    hide Claims, Fold, PlanFields, TargetType, FinalName, FinalMeta, AfterAlter, IsTypeMatch, Claim, LegalAlter, Unclaimed, Decide;
    NothingElse(t, online, a);
    var i :| 0 <= i < |t.fields| && a == FinalName(t, online, i);
    FieldApplied(t, online, i);
    FinalColumnFits(t, online, i);
    if Unclaimed(t, online, b) {
      UnclaimedStays(t, online, b);
      UnclaimedIsOnline(t, online, b);
      assert Stray(t, online, b, i);
    } else {
      NothingElse(t, online, b);
      var j :| 0 <= j < |t.fields| && b == FinalName(t, online, j);
      FieldApplied(t, online, j);
      FinalColumnFits(t, online, j);
    }
  }

  /** Planner convergence, exactly: after the plan has run, planning again asks for nothing, unless an
      unclaimed column carries the number of a declared field; then the next plan is refused. */
  lemma PlanConverges(t: MessageTable, online: Columns, expandOnly: bool)
    requires Accepted(t, online) && FoldDistinct(t)
    ensures PlanColumns(t, AfterAlter(online, Plan(t, online)), expandOnly) ==
      if StrayNumber(t, online) then Err(SchemaDrift) else Ok([])
  {
    hide Claims, Fold, TargetType, AfterAlter, IsTypeMatch, Claim, Unclaimed, Decide, HasDuplicateNumbers, Decision;
    DuplicateNumbersAfter(t, online);
    var after := AfterAlter(online, Plan(t, online));
    forall i | 0 <= i < |t.fields| ensures Decision(t, after, i) == Ok(None) {
      FieldIsSettled(t, online, i);
    }
    NothingToPlan(t, after, |t.fields|);
  }

  /** Where a field has a namesake online, no other column carries its number. */
  ghost predicate NumbersAtHome(t: MessageTable, online: Columns) {
    forall i, m, d | 0 <= i < |t.fields| && m in online && d in online ::
      Fold(m) == Fold(t.fields[i].name) && online[d].fieldNum == t.fields[i].number ==> d == m
  }

  /** A condition to look at before the call that rules stray numbers out. */
  lemma CleanCommentsConverge(t: MessageTable, online: Columns)
    requires Accepted(t, online) && FoldDistinct(t) && NumbersAtHome(t, online)
    ensures !StrayNumber(t, online)
  {
    hide Claims, Fold, TargetType, IsTypeMatch, Claim, Unclaimed, Decide, PlanFields;
    if d, i :| Stray(t, online, d, i) {
      UnclaimedIsOnline(t, online, d);
      UnclaimedIsNoField(t, online, d, i);
      NumberIsClaimed(t, online, d, i);
      UnclaimedMeans(t, online, d);
    }
  }

  /** A field without a namesake online claims the column carrying its number, if that one is free. */
  lemma NumberIsClaimed(t: MessageTable, online: Columns, d: string, i: nat)
    requires Accepted(t, online) && i < |t.fields| && Unclaimed(t, online, d)
    requires d in online && online[d].fieldNum == t.fields[i].number
    requires forall m :: m in online ==> Fold(m) != Fold(t.fields[i].name)
    ensures ClaimOf(t, online, i) == Some(d)
  {
    hide Claims, Fold, TargetType, IsTypeMatch, Decide, PlanFields;
    ClaimAt(online, t.fields, i);
    ClaimsPrefix(online, t.fields, i);
    var left := Left(online, Claims(online, t.fields[..i]));
    assert Candidates(left, t.fields[i].name) == {};
    assert t.fields[i] in t.fields;
    assert Owners(online, t.fields[i].number) == {d};
    assert Some(d) !in Claims(online, t.fields)[..i];
    assert d in left;
  }

  /** The case the condition shuts out: a copied column keeps the original's comment while the
      original has none. The plan is accepted, and the table it leaves can not be planned again. */
  lemma CopiedCommentDoesNotConverge(t: MessageTable, online: Columns, name: string, copy: string)
    requires ValidDescriptor(t) && FoldDistinct(t) && |t.fields| == 1 && t.fields[0].name == name
    requires Fold(name) != Fold(copy)
    requires online.Keys == {name, copy}
    requires online[name] == MetaOf(TargetType(t, t.fields[0]), 0)
    requires online[copy] == MetaOf(TargetType(t, t.fields[0]), t.fields[0].number)
    ensures Accepted(t, online)
    ensures PlanColumns(t, AfterAlter(online, Plan(t, online)), false) == Err(SchemaDrift)
  {
    var f := t.fields[0];
    assert f in t.fields;
    assert t.fields[..0] == [];
    assert Claims(online, t.fields[..0]) == [];
    var left := LeftBefore(t, online, 0);
    assert left == online;
    assert Candidates(left, name) == {name};
    ClaimAt(online, t.fields, 0);
    assert ClaimOf(t, online, 0) == Some(name);
    MatchIsTotalPreorder(TargetType(t, f).body, TargetType(t, f).body, TargetType(t, f).body);
    assert Decision(t, online, 0).Ok?;
    assert PlanFields(t, online, 0) == Ok([]);
    assert PlanFields(t, online, 1).Ok?;
    assert Claims(online, t.fields) == [Some(name)];
    assert Stray(t, online, copy, 0);
    PlanConverges(t, online, false);
  }
}
