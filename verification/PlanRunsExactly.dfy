/** Exactly when the two statements of an accepted plan both run. */
module PlanRunsExactly {
  import opened Wrappers
  import opened ColumnTypes
  import opened TableDef
  import opened ColumnPlanner
  import opened AlterTable
  import opened SchemaPlan
  import opened PlanLegality
  import opened TwoStatements
  import opened PlanExecution

  function NewPrimary(t: MessageTable, o: Online): Option<IndexMeta> {
    if AddsPrimary(t, o) then Some(ExpectedIndex(t, t.primaryKey, true)) else None
  }

  /** All a statement needs besides the auto-increment rule. */
  lemma RestIsLegal(t: MessageTable, o: Online, s: Statement)
    requires LegalAlter(o.columns, s.columns) && GoodKeys(t, o, s.keys)
    requires forall i, j :: 0 <= i < |s.keys| && 0 <= j < |s.keys[i].meta.parts| ==>
      Exists(AfterAlter(o.columns, s.columns), s.keys[i].meta.parts[j].name)
    requires s.primary.Some? ==> o.primaryKey.None? && PartsExist(AfterAlter(o.columns, s.columns), s.primary.value)
    ensures LegalStatement(o, s) <==> AutoLegal(AfterStatement(o, s))
  {
    hide LegalAlter, AfterAlter, AutoLegal, AfterStatement, HasIndexNamed, Exists, Declares, Fold;
  }

  lemma PrimaryIsOverFields(t: MessageTable, o: Online)
    requires ValidOptions(t) && AddsPrimary(t, o)
    ensures OverFields(t, ExpectedIndex(t, t.primaryKey, true))
  {
    hide ValidOptions, OverFields, ExpectedIndex;
    assert t.primaryKey in DeclaredKeys(t);
    ExpectedIsOverFields(t, t.primaryKey, true);
  }

  /** Adding a missing primary key over columns that are there always works. */
  lemma PrimaryRuns(t: MessageTable, o: Online, mid: Online)
    requires LegalTable(mid) && ValidOptions(t) && (AddsPrimary(t, o) ==> mid.primaryKey.None?)
    requires forall name :: Declares(t, name) ==> Exists(mid.columns, name)
    ensures LegalStatement(mid, Statement([], [], NewPrimary(t, o)))
  {
    hide ValidOptions, Fold, Exists, Declares, AutoLegal, AfterStatement;
    var s := Statement([], [], NewPrimary(t, o));
    assert forall n :: !Touched([], n);
    assert AfterAlter(mid.columns, []) == mid.columns;
    if AddsPrimary(t, o) {
      PrimaryIsOverFields(t, o);
    }
    AutoLegalWithout(mid, s);
  }

  // ---------------------------------------------------------------- nothing moves

  lemma {:induction false} NoneRefers(keys: seq<NewKey>)
    ensures KeysFor(keys, [], false) == keys && KeysFor(keys, [], true) == []
  {
    if keys != [] {
      NoneRefers(keys[..|keys| - 1]);
    }
  }

  function Whole(t: MessageTable, naming: Naming, o: Online): Statement
    requires PlanFields(t, o.columns, |t.fields|).Ok?
  {
    Statement(Plan(t, o.columns), MissingKeys(t, naming, o), None)
  }

  lemma KeyPartsExist(t: MessageTable, o: Online, keys: seq<NewKey>)
    requires Accepted(t, o.columns) && FoldDistinct(t) && GoodKeys(t, o, keys)
    ensures forall i, j :: 0 <= i < |keys| && 0 <= j < |keys[i].meta.parts| ==>
      Exists(AfterAlter(o.columns, Plan(t, o.columns)), keys[i].meta.parts[j].name)
  {
    hide Fold, Exists, Declares, AfterAlter, PlanFields, HasIndexNamed, DistinctNames, FoldDistinct;
    forall i, j | 0 <= i < |keys| && 0 <= j < |keys[i].meta.parts|
      ensures Exists(AfterAlter(o.columns, Plan(t, o.columns)), keys[i].meta.parts[j].name)
    {
      DeclaredExists(t, o.columns, keys[i].meta.parts[j].name);
    }
  }

  /** With nothing to move, the whole plan runs exactly when the first statement obeys the
      auto-increment rule. */
  lemma RunsUnmoved(t: MessageTable, naming: Naming, o: Online)
    requires Planned(t, naming, o) && forall c :: c in Plan(t, o.columns) ==> !Moves(t, o, c)
    ensures PlanRuns(o, SplitPlan(t, naming, o, Plan(t, o.columns))) <==> AutoLegal(AfterStatement(o, Whole(t, naming, o)))
  {
    hide Fold, Exists, Declares, AfterAlter, PlanFields, HasIndexNamed, ValidOptions, AutoLegal, LegalAlter, LegalTable, GoodKeys,
         Drifts, LegalStatement, Moves, MissingKeys, ExpectedIndex;
    var cs := Plan(t, o.columns);
    var first := Whole(t, naming, o);
    NoneMoves(t, o, cs);
    NoneRefers(MissingKeys(t, naming, o));
    MissingKeysAreGood(t, naming, o);
    PlanIsLegal(t, o.columns);
    KeyPartsExist(t, o, first.keys);
    RestIsLegal(t, o, first);
    if LegalStatement(o, first) {
      StatementKeepsLegal(o, first);
      forall name | Declares(t, name) ensures Exists(AfterStatement(o, first).columns, name) {
        DeclaredExists(t, o.columns, name);
      }
      PrimaryRuns(t, o, AfterStatement(o, first));
    }
  }

  // ---------------------------------------------------------------- the exact condition

  /** Clause p can define the auto-increment column: some key leads it in time, no other
      auto-increment column stays behind, and, if it moves to the second statement, the column it
      redefines is not in the way of the first one. */
  ghost predicate Fits(t: MessageTable, naming: Naming, o: Online, p: nat)
    requires PlanFields(t, o.columns, |t.fields|).Ok? && p < |Plan(t, o.columns)|
  {
    var cs := Plan(t, o.columns);
    && (|| (exists n :: n in o.columns && Touches(cs[p], n) && Leads(o, n))
        || KeyLeads(MissingKeys(t, naming, o), cs[p].column)
        || (AddsPrimary(t, o) && LedBy(ExpectedIndex(t, t.primaryKey, true), cs[p].column)))
    && (forall z :: IsAuto(o.columns, z) ==> Touched(cs, z))
    && (Moves(t, o, cs[p]) ==> Free(o.columns, cs, p))
  }

  lemma OneAutoClause(t: MessageTable, online: Columns, p: nat)
    requires Accepted(t, online) && FoldDistinct(t) && ValidOptions(t)
    requires p < |Plan(t, online)| && Plan(t, online)[p].def.autoIncrement
    ensures Plan(t, online)[p].column == t.autoIncrementKey
    ensures OnlyAuto(Plan(t, online), p)
    ensures OnlyAuto(Without(Plan(t, online), p), -1)
  {
    hide Fold, PlanFields, ValidOptions, LegalAlter, ClauseOf;
    var cs := Plan(t, online);
    PlanIsLegal(t, online);
    ColumnsDistinct(online, cs);
    PlanIsAuto(t, online, p);
    forall k | 0 <= k < |cs| && cs[k].def.autoIncrement ensures k == p {
      PlanIsAuto(t, online, k);
    }
  }

  /** A primary key that is not led by the auto-increment key does not help: it does not move the clause. */
  lemma PrimaryLeadMoves(t: MessageTable, o: Online, c: Clause)
    requires FoldDistinct(t) && ValidOptions(t) && AddsPrimary(t, o) && Declares(t, c.column)
    requires c.def.autoIncrement && LedBy(ExpectedIndex(t, t.primaryKey, true), c.column)
    ensures Moves(t, o, c)
  {
    hide Fold;
    var name := t.primaryKey[0];
    assert name in t.primaryKey;
    SameField(t, name, c.column);
  }

  lemma ColumnIsDeclared(t: MessageTable, online: Columns, k: nat)
    requires Accepted(t, online) && ValidOptions(t) && k < |Plan(t, online)|
    ensures Declares(t, Plan(t, online)[k].column)
  {
    hide Fold, PlanFields, ValidOptions, ClauseOf;
    PlanIsAuto(t, online, k);
    var i :| 0 <= i < |t.fields| && Plan(t, online)[k].column == t.fields[i].name;
    assert t.fields[i] in t.fields;
  }

  lemma AutoUnmoved(t: MessageTable, naming: Naming, o: Online, p: nat)
    requires Planned(t, naming, o) && p < |Plan(t, o.columns)|
    requires Plan(t, o.columns)[p].def.autoIncrement && !Moves(t, o, Plan(t, o.columns)[p])
    ensures PlanRuns(o, SplitPlan(t, naming, o, Plan(t, o.columns))) <==> Fits(t, naming, o, p)
  {
    hide Fold, AfterAlter, PlanFields, ValidOptions, AutoLegal, LegalAlter, LegalTable,
         Drifts, LegalStatement, MissingKeys, ExpectedIndex, Leads, KeyLeads, LedBy, Touched, Touches, SplitPlan, PlanRuns, AfterStatement,
         OverFields, HasIndexNamed, Declares;
    var cs := Plan(t, o.columns);
    OneAutoClause(t, o.columns, p);
    forall c | c in cs ensures !Moves(t, o, c) {
      var k :| 0 <= k < |cs| && cs[k] == c;
    }
    RunsUnmoved(t, naming, o);
    PlanIsLegal(t, o.columns);
    MissingKeysAreGood(t, naming, o);
    AutoLegalWith(o, Whole(t, naming, o), p);
    ColumnIsDeclared(t, o.columns, p);
    if AddsPrimary(t, o) && LedBy(ExpectedIndex(t, t.primaryKey, true), cs[p].column) {
      PrimaryLeadMoves(t, o, cs[p]);
    }
  }

  // ---------------------------------------------------------------- one clause moves

  function NowKeys(t: MessageTable, naming: Naming, o: Online, c: Clause): seq<NewKey> {
    KeysFor(MissingKeys(t, naming, o), [c], false)
  }

  function LaterKeys(t: MessageTable, naming: Naming, o: Online, c: Clause): seq<NewKey> {
    KeysFor(MissingKeys(t, naming, o), [c], true)
  }

  function First(t: MessageTable, naming: Naming, o: Online, p: nat): Statement
    requires PlanFields(t, o.columns, |t.fields|).Ok? && p < |Plan(t, o.columns)|
  {
    Statement(Without(Plan(t, o.columns), p), NowKeys(t, naming, o, Plan(t, o.columns)[p]), None)
  }

  function Second(t: MessageTable, naming: Naming, o: Online, p: nat): Statement
    requires PlanFields(t, o.columns, |t.fields|).Ok? && p < |Plan(t, o.columns)|
  {
    Statement([Plan(t, o.columns)[p]], LaterKeys(t, naming, o, Plan(t, o.columns)[p]), NewPrimary(t, o))
  }

  lemma MovedShape(t: MessageTable, naming: Naming, o: Online, p: nat)
    requires Planned(t, naming, o) && p < |Plan(t, o.columns)| && Moves(t, o, Plan(t, o.columns)[p])
    ensures SplitPlan(t, naming, o, Plan(t, o.columns)) == SchemaPlan(First(t, naming, o, p), Second(t, naming, o, p))
  {
    hide Fold, PlanFields, ValidOptions, LegalTable, Drifts, MissingKeys, ExpectedIndex, KeysFor, Moved, AddsPrimary;
    OneAutoClause(t, o.columns, p);
    OneMoves(t, o, Plan(t, o.columns), p);
  }

  lemma RefersToOne(k: NewKey, c: Clause)
    ensures RefersTo(k, [c]) <==> k.name == c.column || exists j :: 0 <= j < |k.meta.parts| && k.meta.parts[j].name == c.column
  {
    assert [c][0] == c;
    if j :| 0 <= j < |k.meta.parts| && k.meta.parts[j].name == c.column {
      assert k.meta.parts[j].name == [c][0].column;
    }
  }

  /** After the first statement every declared column but the moved one is there. */
  lemma MidExists(t: MessageTable, o: Online, p: nat, name: string)
    requires Accepted(t, o.columns) && FoldDistinct(t) && ValidOptions(t) && p < |Plan(t, o.columns)|
    requires Free(o.columns, Plan(t, o.columns), p)
    requires Declares(t, name) && name != Plan(t, o.columns)[p].column
    ensures Exists(AfterAlter(o.columns, Without(Plan(t, o.columns), p)), name)
  {
    hide Fold, PlanFields, ValidOptions, LegalAlter, AfterAlter, Declares, Free, Touched;
    var cs := Plan(t, o.columns);
    PlanIsLegal(t, o.columns);
    SplitIsWhole(o.columns, cs, p);
    DeclaredExists(t, o.columns, name);
    var n :| n in AfterAlter(o.columns, cs) && Fold(n) == Fold(name);
    AfterLookup(AfterAlter(o.columns, Without(cs, p)), [cs[p]], n);
    ColumnIsDeclared(t, o.columns, p);
    if n == cs[p].column {
      SameField(t, name, n);
    }
  }

  lemma FirstRuns(t: MessageTable, naming: Naming, o: Online, p: nat)
    requires Planned(t, naming, o) && p < |Plan(t, o.columns)| && Moves(t, o, Plan(t, o.columns)[p])
    ensures LegalStatement(o, First(t, naming, o, p)) <==> Free(o.columns, Plan(t, o.columns), p)
  {
    hide Fold, PlanFields, ValidOptions, LegalAlter, AfterAlter, Declares, Free, Touched, AutoLegal, AfterStatement,
         MissingKeys, KeysFor, RefersTo, HasIndexNamed, Exists, Drifts;
    var cs := Plan(t, o.columns);
    var s := First(t, naming, o, p);
    PlanIsLegal(t, o.columns);
    FirstPartLegal(o.columns, cs, p);
    if Free(o.columns, cs, p) {
      MissingKeysAreGood(t, naming, o);
      KeysForFacts(t, o, MissingKeys(t, naming, o), [cs[p]], false);
      forall i, j | 0 <= i < |s.keys| && 0 <= j < |s.keys[i].meta.parts|
        ensures Exists(AfterAlter(o.columns, s.columns), s.keys[i].meta.parts[j].name)
      {
        assert s.keys[i] in s.keys;
        RefersToOne(s.keys[i], cs[p]);
        MidExists(t, o, p, s.keys[i].meta.parts[j].name);
      }
      RestIsLegal(t, o, s);
      OneAutoClause(t, o.columns, p);
      AutoLegalWithout(o, s);
    }
  }

  /** Index names that are new before the first statement and go to the second are still new then. */
  lemma StillNew(t: MessageTable, naming: Naming, o: Online, p: nat, k: NewKey)
    requires Planned(t, naming, o) && p < |Plan(t, o.columns)|
    requires k in LaterKeys(t, naming, o, Plan(t, o.columns)[p])
    ensures !HasIndexNamed(AfterStatement(o, First(t, naming, o, p)), k.name)
  {
    hide Fold, PlanFields, ValidOptions, AfterAlter, MissingKeys, KeysFor, RefersTo, OverFields, Drifts, LegalTable, AddedIndexes, RenameIndex;
    var keys, c := MissingKeys(t, naming, o), Plan(t, o.columns)[p];
    var first := First(t, naming, o, p);
    MissingKeysAreGood(t, naming, o);
    KeysForFacts(t, o, keys, [c], false);
    KeysForFacts(t, o, keys, [c], true);
    var i :| 0 <= i < |keys| && keys[i] == k;
    AddedLookup(first.keys);
    forall n | n in AfterStatement(o, first).indexes ensures Fold(n) != Fold(k.name) {
      if n in AddedIndexes(first.keys) {
        var l :| 0 <= l < |first.keys| && first.keys[l].name == n;
        assert first.keys[l] in keys;
        var m :| 0 <= m < |keys| && keys[m] == first.keys[l];
        assert m != i;
      } else {
        assert n in o.indexes && !HasIndexNamed(o, k.name);
      }
    }
  }

  lemma SecondRuns(t: MessageTable, naming: Naming, o: Online, p: nat)
    requires Planned(t, naming, o) && p < |Plan(t, o.columns)| && Moves(t, o, Plan(t, o.columns)[p])
    requires Free(o.columns, Plan(t, o.columns), p)
    ensures var mid, second := AfterStatement(o, First(t, naming, o, p)), Second(t, naming, o, p);
      && LegalAlter(mid.columns, second.columns) && GoodKeys(t, mid, second.keys)
      && (LegalStatement(mid, second) <==> AutoLegal(AfterStatement(mid, second)))
  {
    hide Fold, PlanFields, ValidOptions, LegalAlter, AfterAlter, Declares, Free, Touched, AutoLegal, OverFields, Touches,
         MissingKeys, KeysFor, RefersTo, HasIndexNamed, Exists, Drifts, ExpectedIndex, LegalStatement, PartsExist, LegalTable;
    var cs := Plan(t, o.columns);
    var mid, second := AfterStatement(o, First(t, naming, o, p)), Second(t, naming, o, p);
    PlanIsLegal(t, o.columns);
    SecondPartLegal(o.columns, cs, p);
    SplitIsWhole(o.columns, cs, p);
    MissingKeysAreGood(t, naming, o);
    KeysForFacts(t, o, MissingKeys(t, naming, o), [cs[p]], true);
    forall i | 0 <= i < |second.keys| ensures !HasIndexNamed(mid, second.keys[i].name) {
      StillNew(t, naming, o, p, second.keys[i]);
    }
    KeyPartsExist(t, o, second.keys);
    PrimaryIsOverFields(t, o);
    KeyColumnsExist(t, o.columns, ExpectedIndex(t, t.primaryKey, true));
    RestIsLegal(t, mid, second);
  }

  /** No key of the first statement is led by the column that moves. */
  lemma NowKeysDoNotLead(t: MessageTable, naming: Naming, o: Online, p: nat, n: string)
    requires Planned(t, naming, o) && p < |Plan(t, o.columns)| && Free(o.columns, Plan(t, o.columns), p)
    requires n in o.columns && Touches(Plan(t, o.columns)[p], n)
    ensures !KeyLeads(NowKeys(t, naming, o, Plan(t, o.columns)[p]), n)
  {
    hide Fold, PlanFields, ValidOptions, LegalAlter, AfterAlter, Declares, Touches, MissingKeys, KeysFor, RefersTo, HasIndexNamed,
         Drifts, LegalTable;
    var cs := Plan(t, o.columns);
    var now := NowKeys(t, naming, o, cs[p]);
    PlanIsLegal(t, o.columns);
    ColumnsDistinct(o.columns, cs);
    MissingKeysAreGood(t, naming, o);
    KeysForFacts(t, o, MissingKeys(t, naming, o), [cs[p]], false);
    forall i | 0 <= i < |now| ensures !LedBy(now[i].meta, n) {
      assert now[i] in now;
      RefersToOne(now[i], cs[p]);
      var a := now[i].meta.parts[0].name;
      DeclaredExists(t, o.columns, a);
      var m :| m in AfterAlter(o.columns, cs) && Fold(m) == Fold(a);
      AfterLookup(o.columns, cs, m);
      ColumnIsDeclared(t, o.columns, p);
      if m == cs[p].column {
        SameField(t, a, m);
      }
      assert Touched(cs, n);
    }
  }

  /** The keys leading the moved column are the same when its turn comes. */
  lemma LeadsInTheMiddle(t: MessageTable, naming: Naming, o: Online, p: nat)
    requires Planned(t, naming, o) && p < |Plan(t, o.columns)| && Moves(t, o, Plan(t, o.columns)[p])
    requires Free(o.columns, Plan(t, o.columns), p)
    ensures var c, mid := Plan(t, o.columns)[p], AfterStatement(o, First(t, naming, o, p));
      (exists n :: n in mid.columns && Touches(c, n) && Leads(mid, n)) <==> (exists n :: n in o.columns && Touches(c, n) && Leads(o, n))
  {
    hide Fold, PlanFields, ValidOptions, LegalAlter, AfterAlter, Declares, Touches, MissingKeys, KeysFor, HasIndexNamed,
         Drifts, Free, FoldDistinct, DistinctNaming, LegalTable, OverFields, RenameIndex, AddedIndexes, LedBy, KeyLeads, Leads, AutoLegal;
    var cs := Plan(t, o.columns);
    var first := First(t, naming, o, p);
    var mid := AfterStatement(o, first);
    PlanIsLegal(t, o.columns);
    MissingKeysAreGood(t, naming, o);
    KeysForFacts(t, o, MissingKeys(t, naming, o), [cs[p]], false);
    FirstPartLegal(o.columns, cs, p);
    forall n | n in o.columns && Touches(cs[p], n) ensures n in mid.columns && (Leads(mid, n) <==> Leads(o, n)) {
      OthersDoNotTouch(o.columns, cs, p, n);
      MiddleColumns(o.columns, cs, p, n);
      LeadsAfterUntouched(o, first, n);
      NowKeysDoNotLead(t, naming, o, p, n);
    }
    forall n | n in mid.columns && Touches(cs[p], n) ensures n in o.columns {
      MiddleColumns(o.columns, cs, p, n);
      if k :| 0 <= k < |cs| && k != p && cs[k].column == n {
        WrittenIsNotTouched(o.columns, cs, p, k);
      }
    }
  }

  lemma OthersDoNotTouch(cols: Columns, cs: seq<Clause>, p: nat, n: string)
    requires LegalAlter(cols, cs) && p < |cs| && n in cols && Touches(cs[p], n)
    ensures !Touched(Without(cs, p), n)
  {
    hide Touches;
  }

  lemma LaterKeysLead(t: MessageTable, naming: Naming, o: Online, p: nat)
    requires Planned(t, naming, o) && p < |Plan(t, o.columns)|
    ensures var c := Plan(t, o.columns)[p];
      KeyLeads(LaterKeys(t, naming, o, c), c.column) <==> KeyLeads(MissingKeys(t, naming, o), c.column)
  {
    hide Fold, PlanFields, ValidOptions, Declares, MissingKeys, KeysFor, RefersTo, HasIndexNamed, Drifts, LegalTable;
    var keys, c := MissingKeys(t, naming, o), Plan(t, o.columns)[p];
    var later := LaterKeys(t, naming, o, c);
    MissingKeysAreGood(t, naming, o);
    KeysForFacts(t, o, keys, [c], true);
    ColumnIsDeclared(t, o.columns, p);
    if i :| 0 <= i < |keys| && LedBy(keys[i].meta, c.column) {
      SameField(t, keys[i].meta.parts[0].name, c.column);
      RefersToOne(keys[i], c);
      assert keys[i] in later;
    }
    if i :| 0 <= i < |later| && LedBy(later[i].meta, c.column) {
      assert later[i] in keys;
    }
  }

  lemma AutosInTheMiddle(t: MessageTable, naming: Naming, o: Online, p: nat)
    requires Planned(t, naming, o) && p < |Plan(t, o.columns)| && Moves(t, o, Plan(t, o.columns)[p])
    requires Free(o.columns, Plan(t, o.columns), p)
    ensures var c, mid := Plan(t, o.columns)[p], AfterStatement(o, First(t, naming, o, p));
      (forall z :: IsAuto(mid.columns, z) ==> Touched([c], z)) <==> (forall z :: IsAuto(o.columns, z) ==> Touched(Plan(t, o.columns), z))
  {
    hide Fold, PlanFields, ValidOptions, LegalAlter, AfterAlter, Touched, Touches, MissingKeys, KeysFor, Drifts, Free, LegalTable, IsAuto;
    var cs := Plan(t, o.columns);
    var mid := AfterStatement(o, First(t, naming, o, p));
    OneAutoClause(t, o.columns, p);
    PlanIsLegal(t, o.columns);
    FirstPartLegal(o.columns, cs, p);
    forall z ensures TouchedIn(cs, p, z) && (IsAuto(mid.columns, z) <==> IsAuto(o.columns, z) && !Touched(Without(cs, p), z)) {
      AutoColumnsAfter(o.columns, Without(cs, p), z);
      TouchedWithout(cs, p, z);
      TouchedOne(cs[p], z);
    }
    forall z | Touches(cs[p], z) && IsAuto(mid.columns, z) ensures Touched([cs[p]], z) {
      assert TouchedIn(cs, p, z);
    }
  }

  ghost predicate TouchedIn(cs: seq<Clause>, p: nat, z: string)
    requires p < |cs|
  {
    && (Touched(cs, z) <==> Touches(cs[p], z) || Touched(Without(cs, p), z))
    && (Touched([cs[p]], z) <==> Touches(cs[p], z))
  }

  lemma AutoMoved(t: MessageTable, naming: Naming, o: Online, p: nat)
    requires Planned(t, naming, o) && p < |Plan(t, o.columns)| && Moves(t, o, Plan(t, o.columns)[p])
    ensures PlanRuns(o, SplitPlan(t, naming, o, Plan(t, o.columns))) <==> Fits(t, naming, o, p)
  {
    hide Fold, AfterAlter, PlanFields, ValidOptions, AutoLegal, LegalAlter, LegalTable, Free,
         Drifts, LegalStatement, MissingKeys, ExpectedIndex, Leads, KeyLeads, LedBy, Touched, Touches, SplitPlan, AfterStatement,
         OverFields, HasIndexNamed, Declares, KeysFor, IsAuto;
    MovedShape(t, naming, o, p);
    FirstRuns(t, naming, o, p);
    if Free(o.columns, Plan(t, o.columns), p) {
      var first, second := First(t, naming, o, p), Second(t, naming, o, p);
      var mid := AfterStatement(o, first);
      StatementKeepsLegal(o, first);
      SecondRuns(t, naming, o, p);
      OneAutoClause(t, o.columns, p);
      assert second.columns[0] == Plan(t, o.columns)[p];
      MidHasNoPrimary(o, first);
      AutoLegalWith(mid, second, 0);
      LeadsInTheMiddle(t, naming, o, p);
      LaterKeysLead(t, naming, o, p);
      AutosInTheMiddle(t, naming, o, p);
    }
  }

  lemma MidHasNoPrimary(o: Online, s: Statement)
    requires o.primaryKey.None? && s.primary.None?
    ensures AfterStatement(o, s).primaryKey.None?
  {
  }

  // ---------------------------------------------------------------- what the two statements leave

  /** However the clauses are split, the columns end up as if they had all run at once. */
  lemma SplitKeepsColumns(t: MessageTable, naming: Naming, o: Online)
    requires Planned(t, naming, o) && PlanRuns(o, SplitPlan(t, naming, o, Plan(t, o.columns)))
    ensures var plan := SplitPlan(t, naming, o, Plan(t, o.columns));
      AfterStatement(AfterStatement(o, plan.first), plan.second).columns == AfterAlter(o.columns, Plan(t, o.columns))
  {
    hide Fold, PlanFields, FoldDistinct, LegalTable, Drifts, DistinctNaming, MissingKeys, ValidOptions, LegalStatement, LegalAlter,
         KeysFor, Moved, Free, Touched, WrittenColumns;
    var cs := Plan(t, o.columns);
    if p :| 0 <= p < |cs| && Moves(t, o, cs[p]) {
      MovedShape(t, naming, o, p);
      FirstRuns(t, naming, o, p);
      PlanIsLegal(t, o.columns);
      SplitIsWhole(o.columns, cs, p);
    } else {
      forall c | c in cs ensures !Moves(t, o, c) {
        var k :| 0 <= k < |cs| && cs[k] == c;
      }
      NoneMoves(t, o, cs);
      NothingAltered(AfterAlter(o.columns, cs));
    }
  }

  lemma NothingAltered(cols: Columns)
    ensures AfterAlter(cols, []) == cols
  {
    assert forall n :: !Touched([], n);
  }
}
