/** Three tables on which an accepted plan does not run. */
module AutoIncrementGaps {
  import opened Wrappers
  import opened ColumnTypes
  import opened TableDef
  import opened ColumnPlanner
  import opened AlterTable
  import opened SchemaPlan
  import opened PlanLegality
  import opened PlanExecution
  import opened PlanRunsExactly
  import opened AutoIncrementPlan

  const NAMING := Naming(i => "idx_t_0", "uk_t")

  function IntField(name: string, number: nat): Field { Field(name, number, Int32Kind, false) }

  function IntColumn(number: nat, auto: bool): ColumnMeta {
    ColumnMeta(Plain(Int), number, false, if auto then NoDefault else Zero, auto, "")
  }

  function IntTable(fields: seq<Field>, primaryKey: seq<string>, indexes: seq<seq<string>>, auto: string): MessageTable {
    MessageTable(fields, primaryKey, indexes, [], auto, [], map[])
  }

  function Over(name: string): IndexMeta { IndexMeta(false, [KeyPart(name, None)]) }

  // ---------------------------------------------------------------- an orphaned auto-increment column

  function OrphanTable(): MessageTable { IntTable([IntField("id", 1)], ["id"], [], "id") }

  function OrphanOnline(): Online { Online(map["z" := IntColumn(0, true)], map["kz" := Over("z")], None) }

  lemma OneField(t: MessageTable, online: Columns)
    requires |t.fields| == 1
    ensures LeftBefore(t, online, 0) == online
    ensures ClaimOf(t, online, 0) == Claim(online, online, t.fields[0])
    ensures Decision(t, online, 0) == Decide(t, online, online, t.fields[0])
    ensures forall c :: Decision(t, online, 0) == Ok(Some(c)) ==> PlanFields(t, online, 1) == Ok([c])
  {
    assert Claims(online, t.fields[..0]) == [];
    assert LeftBefore(t, online, 0) == online;
    ClaimAt(online, t.fields, 0);
    forall c | Decision(t, online, 0) == Ok(Some(c)) ensures PlanFields(t, online, 1) == Ok([c]) {
      var none: seq<Clause> := [];
      assert PlanFields(t, online, 0) == Ok(none);
      assert none + [c] == [c];
    }
  }

  lemma FoldsDiffer(a: string, b: string)
    requires |a| != |b| || exists i :: 0 <= i < |a| && FoldChar(a[i]) != FoldChar(b[i])
    ensures Fold(a) != Fold(b)
  {
    if |a| == |b| {
      var i :| 0 <= i < |a| && FoldChar(a[i]) != FoldChar(b[i]);
      assert Fold(a)[i] != Fold(b)[i];
    }
  }

  lemma OrphanIsValid()
    ensures var t := OrphanTable();
      ValidDescriptor(t) && ValidOptions(t) && FoldDistinct(t) && DistinctNaming(t, NAMING)
  {
    var t := OrphanTable();
    assert DeclaredKeys(t) == [["id"]];
    var f := FieldNamed(t, "id");
    assert f == t.fields[0];
    assert ["id"][..0] == [];
    assert DeclaredKeyBytes(t, ["id"]) == DeclaredKeyBytes(t, []) + IndexKeyPartBytes(t, f);
    assert forall c :: c in t.primaryKey ==> c == "id";
  }

  lemma OrphanIsAccepted()
    ensures var t, o := OrphanTable(), OrphanOnline();
      && LegalTable(o) && PlanSchema(t, NAMING, o, true).Ok?
      && ClauseOf(t, o.columns, 0).Some? && ClaimOf(t, o.columns, 0).None?
  {
    var t, o := OrphanTable(), OrphanOnline();
    var f := t.fields[0];
    FoldsDiffer("id", "z");
    OneField(t, o.columns);
    assert Candidates(o.columns, "id") == {};
    assert Owners(o.columns, 1) == {};
    assert LedBy(o.indexes["kz"], "z");
    assert LegalTable(o);
    assert Claim(o.columns, o.columns, f) == None;
    assert Decide(t, o.columns, o.columns, f) == Ok(Some(Add("id", TargetType(t, f), 1)));
    assert PlanColumns(t, o.columns, false) == Ok([Add("id", TargetType(t, f), 1)]);
    assert !Drifts(t, NAMING, o);
  }

  /** A second auto-increment column is added beside one that belongs to no field. */
  lemma OrphanBreaksThePlan()
    ensures var t, o := OrphanTable(), OrphanOnline();
      && ValidDescriptor(t) && ValidOptions(t) && FoldDistinct(t) && DistinctNaming(t, NAMING) && LegalTable(o)
      && PlanSchema(t, NAMING, o, true).Ok?
      && !PlanRuns(o, PlanSchema(t, NAMING, o, true).value)
  {
    hide ValidDescriptor, ValidOptions, FoldDistinct, DistinctNaming, LegalTable, PlanSchema, PlanRuns, Supported, Waits, ClauseOf, PlanFields;
    var t, o := OrphanTable(), OrphanOnline();
    OrphanIsValid();
    OrphanIsAccepted();
    PlanRunsIff(t, NAMING, o, true);
    assert IsAuto(o.columns, "z");
    assert Claims(o.columns, t.fields) == [ClaimOf(t, o.columns, 0)];
    assert Unclaimed(t, o.columns, "z");
    assert !AutoSettles(t, NAMING, o, 0);
    assert t.fields[0].name == t.autoIncrementKey;
  }

  // ---------------------------------------------------------------- names handed around in a circle

  /** The drift check looks a field's column up by name, the planner hands columns out field by field. */
  function RotatedTable(): MessageTable { IntTable([IntField("h", 1), IntField("f", 2), IntField("k", 3)], [], [["k"]], "k") }

  function RotatedOnline(): Online {
    Online(map["f" := IntColumn(1, false), "k" := IntColumn(2, true)], map["idx_t_0" := Over("k")], None)
  }

  lemma RotatedNames()
    ensures Fold("h") != Fold("f") && Fold("f") != Fold("k") && Fold("h") != Fold("k")
  {
    assert Fold("h")[0] == FoldChar('h') && Fold("f")[0] == FoldChar('f') && Fold("k")[0] == FoldChar('k');
  }

  lemma RotatedIsValid()
    ensures var t := RotatedTable();
      ValidDescriptor(t) && ValidOptions(t) && FoldDistinct(t) && DistinctNaming(t, NAMING)
  {
    hide Fold, ValidOptions;
    RotatedNames();
    FoldsDiffer("idx_t_0", "uk_t");
    RotatedOptionsAreValid();
  }

  lemma RotatedOptionsAreValid()
    ensures ValidOptions(RotatedTable())
  {
    hide DeclaredKeyBytes, FieldNamed;
    var t := RotatedTable();
    RotatedKeyBytes();
    assert DeclaredKeys(t) == [["k"]];
    assert t.indexes[0][0] == "k";
  }

  lemma RotatedKeyBytes()
    ensures var t := RotatedTable();
      Declares(t, "k") && FieldNamed(t, "k") == t.fields[2] && DeclaredKeyBytes(t, ["k"]) == 4
  {
    var t := RotatedTable();
    assert t.fields[2] in t.fields;
    assert ["k"][..0] == [];
    assert DeclaredKeyBytes(t, ["k"]) == DeclaredKeyBytes(t, []) + IndexKeyPartBytes(t, FieldNamed(t, "k"));
  }

  /** One field further. */
  lemma NextField(t: MessageTable, online: Columns, i: nat)
    requires i < |t.fields|
    ensures Claims(online, t.fields[..i + 1]) == Claims(online, t.fields[..i]) + [Claim(online, LeftBefore(t, online, i), t.fields[i])]
    ensures PlanFields(t, online, i).Ok? && Decision(t, online, i).Ok? ==> PlanFields(t, online, i + 1).Ok?
  {
    hide Decide, Claim;
    assert t.fields[..i + 1][..i] == t.fields[..i];
  }

  lemma RotatedDecisions()
    ensures var t, o := RotatedTable(), RotatedOnline();
      && PlanFields(t, o.columns, 3).Ok?
      && Claims(o.columns, t.fields[..3]) == [Some("f"), Some("k"), None]
  {
    hide Fold, Decide, Claims, PlanFields, Comparable, TargetType;
    var t, online := RotatedTable(), RotatedOnline().columns;
    RotatedOwners();
    NoField(t, online);
    IntsCompare(t, online["f"].body, 0);
    StepByNumber(t, online, 0, "f");
    assert LeftBefore(t, online, 1) == map["k" := online["k"]];
    IntsCompare(t, online["k"].body, 1);
    StepByNumber(t, online, 1, "k");
    assert LeftBefore(t, online, 2) == map[];
    assert Candidates(map[], "k") == {};
    StepByAdding(t, online, 2);
  }

  lemma IntsCompare(t: MessageTable, body: TypeBody, i: nat)
    requires i < |t.fields| && t.fields[i].kind == Int32Kind && !t.fields[i].collection && body == Plain(Int)
    ensures Comparable(body, TargetType(t, t.fields[i]).body)
  {
  }

  lemma RotatedOwners()
    ensures var online := RotatedOnline().columns;
      && Owners(online, 1) == {"f"} && Owners(online, 2) == {"k"} && Owners(online, 3) == {}
      && Candidates(online, "h") == {} && Candidates(map["k" := online["k"]], "f") == {}
  {
    hide Fold;
    RotatedNames();
  }

  lemma NoField(t: MessageTable, online: Columns)
    ensures Claims(online, t.fields[..0]) == [] && LeftBefore(t, online, 0) == online && PlanFields(t, online, 0).Ok?
  {
    assert t.fields[..0] == [];
    assert Claims(online, []) == [];
    assert Left(online, []) == online;
  }

  /** A field without a namesake takes the column with its number, and wants nothing it could not become. */
  lemma StepByNumber(t: MessageTable, online: Columns, i: nat, c: string)
    requires i < |t.fields| && PlanFields(t, online, i).Ok? && c in LeftBefore(t, online, i)
    requires Owners(online, t.fields[i].number) == {c} && Candidates(LeftBefore(t, online, i), t.fields[i].name) == {}
    requires c in online && Comparable(online[c].body, TargetType(t, t.fields[i]).body)
    ensures PlanFields(t, online, i + 1).Ok?
    ensures Claims(online, t.fields[..i + 1]) == Claims(online, t.fields[..i]) + [Some(c)]
  {
    hide Fold, Claims, Left, TargetType;
    NextField(t, online, i);
  }

  /** A field whose name and number are both gone is added. */
  lemma StepByAdding(t: MessageTable, online: Columns, i: nat)
    requires i < |t.fields| && PlanFields(t, online, i).Ok?
    requires Owners(online, t.fields[i].number) == {} && Candidates(LeftBefore(t, online, i), t.fields[i].name) == {}
    ensures PlanFields(t, online, i + 1).Ok?
    ensures Claims(online, t.fields[..i + 1]) == Claims(online, t.fields[..i]) + [None]
  {
    hide Fold, Claims, Left, TargetType;
    NextField(t, online, i);
  }

  lemma RotatedIsLegal()
    ensures LegalTable(RotatedOnline()) && !HasDuplicateNumbers(RotatedOnline().columns)
  {
    hide Fold;
    var o := RotatedOnline();
    RotatedNames();
    assert LedBy(o.indexes["idx_t_0"], "k");
    assert PartsExist(o.columns, o.indexes["idx_t_0"]);
  }

  lemma RotatedHasNoDrift()
    ensures !Drifts(RotatedTable(), NAMING, RotatedOnline())
  {
    hide Fold, ColumnDrifts, SameIndex, ExpectedIndex;
    var t, o := RotatedTable(), RotatedOnline();
    RotatedNames();
    assert Candidates(o.columns, "h") == {};
    assert Candidates(o.columns, "f") == {"f"};
    assert Candidates(o.columns, "k") == {"k"};
    assert forall n :: Examines(o.columns, t.fields[0], n) ==> n == "f";
    assert forall n :: Examines(o.columns, t.fields[1], n) ==> n == "f";
    assert forall n :: Examines(o.columns, t.fields[2], n) ==> n == "k";
    RotatedColumnsFit(o.columns["f"], o.columns["k"]);
    RotatedIndexFits();
  }

  lemma RotatedIndexFits()
    ensures SameIndex(Over("k"), ExpectedIndex(RotatedTable(), ["k"], false))
  {
    hide Fold;
    var t := RotatedTable();
    assert !NeedsIndexPrefix(t, "k");
  }

  lemma RotatedColumnsFit(f: ColumnMeta, k: ColumnMeta)
    requires f == RotatedOnline().columns["f"] && k == RotatedOnline().columns["k"]
    ensures var t := RotatedTable();
      !ColumnDrifts(t, t.fields[0], f) && !ColumnDrifts(t, t.fields[1], f) && !ColumnDrifts(t, t.fields[2], k)
  {
  }

  lemma RotatedMissesNoKey()
    ensures MissingKeys(RotatedTable(), NAMING, RotatedOnline()) == []
  {
    hide Fold;
    var t, o := RotatedTable(), RotatedOnline();
    assert "idx_t_0" in o.indexes;
    assert HasIndexNamed(o, NAMING.index(0));
    assert MissingIndexes(t, NAMING, o, 0) == [];
    assert MissingIndexes(t, NAMING, o, 1) == [];
  }

  /** Two renames take the key's column away; the key itself is then added as a column no key leads. */
  lemma RotationBreaksThePlan()
    ensures var t, o := RotatedTable(), RotatedOnline();
      && ValidDescriptor(t) && ValidOptions(t) && FoldDistinct(t) && DistinctNaming(t, NAMING) && LegalTable(o)
      && PlanSchema(t, NAMING, o, false).Ok?
      && !PlanRuns(o, PlanSchema(t, NAMING, o, false).value)
  {
    hide ValidDescriptor, ValidOptions, FoldDistinct, DistinctNaming, LegalTable, PlanRuns, PlanFields, Drifts, HasDuplicateNumbers,
         SplitPlan, Fold, NoOrphanAuto, Claims;
    var t, o := RotatedTable(), RotatedOnline();
    RotatedIsValid();
    RotatedDecisions();
    RotatedIsLegal();
    RotatedHasNoDrift();
    assert t.fields[..3] == t.fields;
    assert ClaimOf(t, o.columns, 2) == None;
    PlanRunsIff(t, NAMING, o, false);
    FieldFacts(t, o.columns, 2);
    RotatedMissesNoKey();
    assert !AutoSettles(t, NAMING, o, 2);
    assert t.fields[2].name == t.autoIncrementKey;
  }

  // ---------------------------------------------------------------- the old name is needed too early

  /** As in a circle, but the primary key is missing: the last rename waits for it. */
  function WaitingTable(): MessageTable {
    IntTable([IntField("h", 1), IntField("f", 2), IntField("id", 3), IntField("c", 4)], ["id"], [], "id")
  }

  function WaitingOnline(): Online {
    Online(map["f" := IntColumn(1, false), "id" := IntColumn(2, true), "c" := IntColumn(3, false)], map["kid" := Over("id")], None)
  }

  lemma WaitingNames()
    ensures Fold("h") != Fold("f") && Fold("f") != Fold("id") && Fold("h") != Fold("id")
    ensures Fold("c") != Fold("h") && Fold("c") != Fold("f") && Fold("c") != Fold("id")
  {
    assert Fold("h")[0] == FoldChar('h') && Fold("f")[0] == FoldChar('f') && Fold("c")[0] == FoldChar('c');
    assert |Fold("id")| == 2;
  }

  lemma WaitingIsValid()
    ensures var t := WaitingTable();
      ValidDescriptor(t) && ValidOptions(t) && FoldDistinct(t) && DistinctNaming(t, NAMING)
  {
    hide Fold, ValidOptions;
    WaitingNames();
    WaitingOptionsAreValid();
  }

  lemma WaitingOptionsAreValid()
    ensures ValidOptions(WaitingTable())
  {
    hide DeclaredKeyBytes, FieldNamed;
    var t := WaitingTable();
    WaitingKeyBytes();
    assert DeclaredKeys(t) == [["id"]];
    assert t.primaryKey[0] == "id";
  }

  lemma WaitingKeyBytes()
    ensures var t := WaitingTable();
      Declares(t, "id") && FieldNamed(t, "id") == t.fields[2] && DeclaredKeyBytes(t, ["id"]) == 4
  {
    var t := WaitingTable();
    assert t.fields[2] in t.fields;
    assert ["id"][..0] == [];
    assert DeclaredKeyBytes(t, ["id"]) == DeclaredKeyBytes(t, []) + IndexKeyPartBytes(t, FieldNamed(t, "id"));
  }

  lemma WaitingOwners()
    ensures var online := WaitingOnline().columns;
      && Owners(online, 1) == {"f"} && Owners(online, 2) == {"id"} && Owners(online, 3) == {"c"} && Owners(online, 4) == {}
      && Candidates(online, "h") == {} && Candidates(map["id" := online["id"], "c" := online["c"]], "f") == {}
      && Candidates(map["c" := online["c"]], "id") == {} && Candidates(map[], "c") == {}
  {
    hide Fold;
    WaitingNames();
  }

  lemma WaitingDecisions()
    ensures var t, o := WaitingTable(), WaitingOnline();
      && PlanFields(t, o.columns, 4).Ok?
      && Claims(o.columns, t.fields[..4]) == [Some("f"), Some("id"), Some("c"), None]
  {
    hide Fold, Decide, Claims, PlanFields, Comparable, TargetType, Owners, Candidates;
    var t, online := WaitingTable(), WaitingOnline().columns;
    WaitingOwners();
    NoField(t, online);
    IntsCompare(t, online["f"].body, 0);
    StepByNumber(t, online, 0, "f");
    assert LeftBefore(t, online, 1) == map["id" := online["id"], "c" := online["c"]];
    IntsCompare(t, online["id"].body, 1);
    StepByNumber(t, online, 1, "id");
    assert LeftBefore(t, online, 2) == map["c" := online["c"]];
    IntsCompare(t, online["c"].body, 2);
    StepByNumber(t, online, 2, "c");
    assert LeftBefore(t, online, 3) == map[];
    StepByAdding(t, online, 3);
  }

  lemma WaitingIsLegal()
    ensures LegalTable(WaitingOnline()) && !HasDuplicateNumbers(WaitingOnline().columns)
  {
    hide Fold;
    var o := WaitingOnline();
    WaitingNames();
    assert LedBy(o.indexes["kid"], "id");
    assert PartsExist(o.columns, o.indexes["kid"]);
  }

  lemma WaitingColumnsFit(plain: ColumnMeta, key: ColumnMeta)
    requires !plain.autoIncrement && plain == IntColumn(plain.fieldNum, false) && key == IntColumn(key.fieldNum, true)
    ensures var t := WaitingTable();
      !ColumnDrifts(t, t.fields[0], plain) && !ColumnDrifts(t, t.fields[1], plain) && !ColumnDrifts(t, t.fields[2], key)
      && !ColumnDrifts(t, t.fields[3], plain)
  {
  }

  lemma WaitingHasNoDrift()
    ensures !Drifts(WaitingTable(), NAMING, WaitingOnline())
  {
    hide Fold, ColumnDrifts, SameIndex, ExpectedIndex;
    var t, o := WaitingTable(), WaitingOnline();
    WaitingNames();
    WaitingOwners();
    assert Candidates(o.columns, "f") == {"f"};
    assert Candidates(o.columns, "id") == {"id"};
    assert Candidates(o.columns, "c") == {"c"};
    assert forall n :: Examines(o.columns, t.fields[0], n) ==> n == "f";
    assert forall n :: Examines(o.columns, t.fields[1], n) ==> n == "f";
    assert forall n :: Examines(o.columns, t.fields[2], n) ==> n == "id";
    assert forall n :: Examines(o.columns, t.fields[3], n) ==> n == "c";
    WaitingColumnsFit(o.columns["f"], o.columns["id"]);
    WaitingColumnsFit(o.columns["c"], o.columns["id"]);
  }

  /** The rename to the key waits for the primary key, while its old name is already added again. */
  lemma WaitingBreaksThePlan()
    ensures var t, o := WaitingTable(), WaitingOnline();
      && ValidDescriptor(t) && ValidOptions(t) && FoldDistinct(t) && DistinctNaming(t, NAMING) && LegalTable(o)
      && PlanSchema(t, NAMING, o, false).Ok?
      && Supported(t, NAMING, o, ClaimOf(t, o.columns, 2)) && Waits(t, o) && !OldNameFree(t, ClaimOf(t, o.columns, 2))
      && !PlanRuns(o, PlanSchema(t, NAMING, o, false).value)
  {
    hide ValidDescriptor, ValidOptions, FoldDistinct, DistinctNaming, LegalTable, PlanRuns, PlanFields, Drifts, HasDuplicateNumbers,
         SplitPlan, Fold, NoOrphanAuto, Claims, MissingKeys, KeyLeads, Leads;
    var t, o := WaitingTable(), WaitingOnline();
    WaitingIsValid();
    WaitingDecisions();
    WaitingIsLegal();
    WaitingHasNoDrift();
    WaitingNames();
    assert t.fields[..4] == t.fields;
    assert ClaimOf(t, o.columns, 2) == Some("c");
    PlanRunsIff(t, NAMING, o, false);
    FieldFacts(t, o.columns, 2);
    assert t.fields[3].name == "c";
    assert "id" in t.primaryKey && t.primaryKey[0] == "id";
    assert !AutoSettles(t, NAMING, o, 2);
    assert t.fields[2].name == t.autoIncrementKey;
  }
}
