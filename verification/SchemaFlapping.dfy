/** Versions that name every field number once: exactly when their syncs come to rest. */
module SchemaFlapping {
  import opened Wrappers
  import opened ColumnTypes
  import opened TableDef
  import opened ColumnPlanner
  import opened AlterTable
  import opened NameOrder
  import opened SchemaPlan
  import opened SchemaConvergence
  import opened SchemaSync
  import opened SchemaSettles

  // ---------------------------------------------------------------- the promise and the condition

  ghost predicate Has(versions: seq<MessageTable>, v: MessageTable, i: nat) {
    v in versions && i < |v.fields|
  }

  predicate SameName(v: MessageTable, i: nat, w: MessageTable, j: nat)
    requires i < |v.fields| && j < |w.fields|
  {
    Fold(v.fields[i].name) == Fold(w.fields[j].name)
  }

  /** The two fields want columns that differ in width at most. */
  predicate Alike(v: MessageTable, i: nat, w: MessageTable, j: nat)
    requires i < |v.fields| && j < |w.fields|
  {
    var a, b := TargetType(v, v.fields[i]), TargetType(w, w.fields[j]);
    Comparable(a.body, b.body) && a == b.(body := a.body)
  }

  /** What a rolling release promises: valid versions, one name for every field number, and for one name
      comparable types with the same attributes. */
  ghost predicate NumbersNamed(versions: seq<MessageTable>) {
    && (forall v :: v in versions ==> ValidDescriptor(v) && ValidOptions(v) && FoldDistinct(v))
    && (forall v, i: nat, w, j: nat :: Has(versions, v, i) && Has(versions, w, j) ==>
          && (v.fields[i].number == w.fields[j].number ==> SameName(v, i, w, j))
          && (SameName(v, i, w, j) ==> Alike(v, i, w, j)))
  }

  /** The other direction: one number for every name. */
  ghost predicate NamesNumbered(versions: seq<MessageTable>) {
    forall v, i: nat, w, j: nat :: Has(versions, v, i) && Has(versions, w, j) && SameName(v, i, w, j) ==>
      v.fields[i].number == w.fields[j].number
  }

  ghost predicate BoundedBy(versions: seq<MessageTable>, bound: nat) {
    forall cols, who :: SyncRun(versions, cols, who) ==> DdlCount(cols, who, |who|) <= bound
  }

  /** From every table and over every run, column DDL comes to an end. */
  ghost predicate Bounded(versions: seq<MessageTable>) {
    exists bound: nat :: BoundedBy(versions, bound)
  }

  // ---------------------------------------------------------------- tables such versions make

  /** The column as field i of this version may have left it, at any width. */
  ghost predicate Descends(v: MessageTable, i: nat, name: string, meta: ColumnMeta)
    requires i < |v.fields|
  {
    var f := v.fields[i];
    var target := TargetType(v, f);
    && Fold(name) == Fold(f.name)
    && meta == MetaOf(target.(body := meta.body), f.number)
    && Comparable(meta.body, target.body)
    && (IsKeyColumn(v, f) ==> Normal(meta.body.base) == target.body.base)
  }

  ghost predicate Descended(versions: seq<MessageTable>, name: string, meta: ColumnMeta) {
    exists v, i: nat :: Has(versions, v, i) && Descends(v, i, name, meta)
  }

  /** Every column was left by some field of some version. */
  ghost predicate Known(versions: seq<MessageTable>, cols: Columns) {
    FoldUnique(cols) && forall n :: n in cols ==> Descended(versions, n, cols[n])
  }

  /** Default '' marks the key columns, so fields with the same attributes agree on being one. */
  lemma AlikeKeys(v: MessageTable, i: nat, w: MessageTable, j: nat)
    requires i < |v.fields| && j < |w.fields| && Alike(v, i, w, j)
    ensures IsKeyColumn(v, v.fields[i]) <==> IsKeyColumn(w, w.fields[j])
    ensures IsKeyColumn(v, v.fields[i]) ==>
      v.fields[i].kind == w.fields[j].kind && TargetType(v, v.fields[i]).body.base == TargetType(w, w.fields[j]).body.base
  {
    KeyIsEmptyText(v, v.fields[i]);
    KeyIsEmptyText(w, w.fields[j]);
  }

  lemma KeyIsEmptyText(v: MessageTable, f: Field)
    ensures TargetType(v, f).default_ == EmptyText <==> IsKeyColumn(v, f)
    ensures IsKeyColumn(v, f) ==>
      && (f.kind.StringKind? || f.kind.BytesKind?)
      && TargetType(v, f).collation == (if f.kind.StringKind? then KEY_STRING_COLLATION else "")
      && TargetType(v, f).body.base == (if f.kind.StringKind? then VarChar else VarBinary)
  {
  }

  /** A known column fits every field of its name, and passes the drift check on it. */
  lemma KnownFits(versions: seq<MessageTable>, w: MessageTable, j: nat, name: string, meta: ColumnMeta)
    requires NumbersNamed(versions) && Has(versions, w, j) && Descended(versions, name, meta)
    ensures Fold(name) == Fold(w.fields[j].name) ==>
      Comparable(meta.body, TargetType(w, w.fields[j]).body) && !ColumnDrifts(w, w.fields[j], meta)
    ensures Fold(name) == Fold(w.fields[j].name) && IsKeyColumn(w, w.fields[j]) ==>
      Normal(meta.body.base) == TargetType(w, w.fields[j]).body.base
    ensures meta.fieldNum == w.fields[j].number ==> Fold(name) == Fold(w.fields[j].name)
  {
    hide Fold, TargetType, IsKeyColumn, ValidOptions, ColumnDrifts, IsLegacyKey, Comparable;
    var v, i: nat :| Has(versions, v, i) && Descends(v, i, name, meta);
    if Fold(name) == Fold(w.fields[j].name) {
      assert SameName(v, i, w, j);
      var g := w.fields[j];
      assert g in w.fields;
      ComparablePartitions(meta.body, TargetType(v, v.fields[i]).body, TargetType(w, g).body);
      AlikeKeys(v, i, w, j);
      var def := TargetType(w, g).(body := meta.body);
      assert meta == MetaOf(def, meta.fieldNum);
      KeyShapeIsNoLegacy(w, g, meta);
      DriftIgnoresNumber(w, g, meta, MetaOf(def, g.number));
      WrittenDoesNotDrift(w, g, def);
    }
  }

  lemma KeyShapeIsNoLegacy(w: MessageTable, g: Field, meta: ColumnMeta)
    ensures IsKeyColumn(w, g) && Normal(meta.body.base) == TargetType(w, g).body.base && meta.collation == TargetType(w, g).collation ==>
      !IsLegacyKey(g, meta)
  {
    KeyIsEmptyText(w, g);
  }

  lemma DriftIgnoresNumber(w: MessageTable, g: Field, a: ColumnMeta, b: ColumnMeta)
    requires a == b.(fieldNum := a.fieldNum)
    ensures ColumnDrifts(w, g, a) <==> ColumnDrifts(w, g, b)
    ensures IsLegacyKey(g, a) <==> IsLegacyKey(g, b)
  {
  }

  // ---------------------------------------------------------------- one sync on such a table

  /** Numbers are unique, because a number has one name. */
  lemma KnownNumbersAreUnique(versions: seq<MessageTable>, cols: Columns)
    requires NumbersNamed(versions) && Known(versions, cols)
    ensures !HasDuplicateNumbers(cols)
  {
    hide Fold, TargetType, IsKeyColumn, ValidOptions, Comparable, Descends, ColumnDrifts;
    forall a, b | a in cols && b in cols && cols[a].fieldNum == cols[b].fieldNum != 0 ensures a == b {
      assert Descended(versions, a, cols[a]);
      var v, i: nat :| Has(versions, v, i) && Descends(v, i, a, cols[a]);
      DescendsNames(v, i, a, cols[a]);
      KnownFits(versions, v, i, b, cols[b]);
    }
  }

  lemma DescendsNames(v: MessageTable, i: nat, name: string, meta: ColumnMeta)
    requires i < |v.fields| && Descends(v, i, name, meta)
    ensures Fold(name) == Fold(v.fields[i].name) && meta.fieldNum == v.fields[i].number
  {
  }

  /** The number fallback never claims a column of another name. */
  lemma ClaimsAreNamesakes(versions: seq<MessageTable>, v: MessageTable, cols: Columns, i: nat)
    requires NumbersNamed(versions) && Known(versions, cols) && Has(versions, v, i)
    ensures ClaimOf(v, cols, i).Some? ==>
      ClaimOf(v, cols, i).value in cols && Fold(ClaimOf(v, cols, i).value) == Fold(v.fields[i].name)
  {
    hide Fold, Claims, ColumnDrifts, TargetType;
    if ClaimOf(v, cols, i).Some? {
      ClaimIsNameOrNumber(v, cols, i);
      var c := ClaimOf(v, cols, i).value;
      KnownFits(versions, v, i, c, cols[c]);
    }
  }

  lemma DecisionIsOk(versions: seq<MessageTable>, v: MessageTable, cols: Columns, i: nat)
    requires NumbersNamed(versions) && Known(versions, cols) && Has(versions, v, i)
    ensures Decision(v, cols, i).Ok?
  {
    hide Fold, Claims, ColumnDrifts, TargetType, Claim, IsTypeMatch, AlignedType, Candidates;
    ClaimAt(cols, v.fields, i);
    ClaimsAreNamesakes(versions, v, cols, i);
    LeftIsOnline(v, cols, i);
    AtMostOneCandidate(cols, LeftBefore(v, cols, i), v.fields[i].name);
    if ClaimOf(v, cols, i).Some? {
      var c := ClaimOf(v, cols, i).value;
      KnownFits(versions, v, i, c, cols[c]);
    }
  }

  lemma LeftIsOnline(v: MessageTable, cols: Columns, i: nat)
    requires i < |v.fields|
    ensures forall n :: n in LeftBefore(v, cols, i) ==> n in cols
  {
  }

  lemma {:induction false} PlanIsOk(versions: seq<MessageTable>, v: MessageTable, cols: Columns, n: nat)
    requires NumbersNamed(versions) && Known(versions, cols) && v in versions && n <= |v.fields|
    ensures PlanFields(v, cols, n).Ok?
  {
    hide Decision, Known, NumbersNamed;
    if n > 0 {
      PlanIsOk(versions, v, cols, n - 1);
      DecisionIsOk(versions, v, cols, n - 1);
    }
  }

  lemma NothingDrifts(versions: seq<MessageTable>, v: MessageTable, cols: Columns)
    requires NumbersNamed(versions) && Known(versions, cols) && v in versions
    ensures !ColumnsDrift(v, cols)
  {
    hide Fold, ColumnDrifts, TargetType;
    forall i | 0 <= i < |v.fields| ensures |Candidates(cols, v.fields[i].name)| <= 1 {
      AtMostOneCandidate(cols, cols, v.fields[i].name);
    }
    forall i, n | 0 <= i < |v.fields| && n in cols && Examines(cols, v.fields[i], n) ensures !ColumnDrifts(v, v.fields[i], cols[n]) {
      assert Has(versions, v, i);
      KnownFits(versions, v, i, n, cols[n]);
    }
  }

  lemma SyncGoes(versions: seq<MessageTable>, v: MessageTable, cols: Columns)
    requires NumbersNamed(versions) && Known(versions, cols) && v in versions
    ensures Goes(v, cols)
  {
    hide Descended, ColumnsDrift, PlanFields, HasDuplicateNumbers, ValidDescriptor, FoldDistinct;
    KnownNumbersAreUnique(versions, cols);
    PlanIsOk(versions, v, cols, |v.fields|);
    NothingDrifts(versions, v, cols);
  }

  /** What a sync writes descends from the field that wrote it. */
  lemma FinalDescends(versions: seq<MessageTable>, v: MessageTable, cols: Columns, i: nat)
    requires NumbersNamed(versions) && Known(versions, cols) && Has(versions, v, i) && Goes(v, cols)
    ensures Descended(versions, FinalName(v, cols, i), FinalMeta(v, cols, i))
  {
    hide Fold, TargetType, IsKeyColumn, ValidOptions, ColumnDrifts, PlanFields, ClaimOf, ClauseOf, ColumnsDrift, IsTypeMatch, Descends,
         HasDuplicateNumbers;
    FieldFacts(v, cols, i);
    ClaimsAreNamesakes(versions, v, cols, i);
    var f, claim := v.fields[i], ClaimOf(v, cols, i);
    if ClauseOf(v, cols, i).None? {
      assert Descended(versions, claim.value, cols[claim.value]);
    } else {
      if claim.Some? {
        KnownFits(versions, v, i, claim.value, cols[claim.value]);
        AlignedDescends(v, i, cols[claim.value]);
      } else {
        TargetDescends(v, i);
      }
      assert Descends(v, i, FinalName(v, cols, i), FinalMeta(v, cols, i));
    }
  }

  lemma TargetDescends(v: MessageTable, i: nat)
    requires i < |v.fields|
    ensures Descends(v, i, v.fields[i].name, MetaOf(TargetType(v, v.fields[i]), v.fields[i].number))
  {
    var target := TargetType(v, v.fields[i]);
    KeyIsEmptyText(v, v.fields[i]);
    ComparablePartitions(target.body, target.body, target.body);
  }

  lemma AlignedDescends(v: MessageTable, i: nat, meta: ColumnMeta)
    requires i < |v.fields| && Comparable(meta.body, TargetType(v, v.fields[i]).body)
    requires IsKeyColumn(v, v.fields[i]) ==> Normal(meta.body.base) == TargetType(v, v.fields[i]).body.base
    ensures Descends(v, i, v.fields[i].name, MetaOf(AlignedDef(meta, TargetType(v, v.fields[i])), v.fields[i].number))
  {
    hide TargetType, IsKeyColumn, NarrowingSuppressed;
    var target := TargetType(v, v.fields[i]);
    KeyIsEmptyText(v, v.fields[i]);
    ComparablePartitions(target.body, target.body, target.body);
  }

  /** A sync is never refused, it leaves a known table, and every field has its own column and number there. */
  lemma SyncKeepsKnown(versions: seq<MessageTable>, v: MessageTable, cols: Columns)
    requires NumbersNamed(versions) && Known(versions, cols) && v in versions
    ensures Goes(v, cols) && Known(versions, AfterAlter(cols, Plan(v, cols)))
    ensures forall i :: 0 <= i < |v.fields| ==> Placed(AfterAlter(cols, Plan(v, cols)), GoalOf(v, i))
  {
    hide Fold, TargetType, ColumnDrifts, PlanFields, ColumnsDrift, AfterAlter, Descended, FinalName, FinalMeta, HasDuplicateNumbers,
         Unclaimed, LegalAlter;
    SyncGoes(versions, v, cols);
    var after := AfterAlter(cols, Plan(v, cols));
    PlanIsLegal(v, cols);
    AlterKeepsNamesUnique(cols, Plan(v, cols));
    forall n | n in after ensures Descended(versions, n, after[n]) {
      NothingElse(v, cols, n);
      if Unclaimed(v, cols, n) {
        UnclaimedStays(v, cols, n);
        UnclaimedIsOnline(v, cols, n);
      } else {
        var i :| 0 <= i < |v.fields| && n == FinalName(v, cols, i);
        FieldApplied(v, cols, i);
        FinalDescends(versions, v, cols, i);
      }
    }
    forall i | 0 <= i < |v.fields| ensures Placed(after, GoalOf(v, i)) {
      FieldApplied(v, cols, i);
      FinalColumnFits(v, cols, i);
      assert PlacedAt(after, GoalOf(v, i), FinalName(v, cols, i));
    }
  }

  /** A column of a field's name with another number makes the sync rewrite it. */
  lemma MisnumberedSendsDdl(versions: seq<MessageTable>, v: MessageTable, cols: Columns, i: nat, n: string)
    requires NumbersNamed(versions) && Known(versions, cols) && Has(versions, v, i) && Goes(v, cols)
    requires n in cols && Fold(n) == Fold(v.fields[i].name) && cols[n].fieldNum != v.fields[i].number
    ensures Plan(v, cols) != []
  {
    hide Fold, TargetType, ColumnDrifts, PlanFields, ColumnsDrift, ClaimOf, ClauseOf, Descended, IsTypeMatch;
    if ClaimOf(v, cols, i) != Some(n) {
      NamesakeTaken(v, cols, i, n);
      var j :| 0 <= j < i && ClaimOf(v, cols, j) == Some(n);
      ClaimsAreNamesakes(versions, v, cols, j);
    }
    FieldFacts(v, cols, i);
    PlanOrigins(v, cols, |v.fields|);
  }

  // ---------------------------------------------------------------- two versions that never come to rest

  lemma {:induction false} DdlCountPrefix(cols: seq<Columns>, who: seq<MessageTable>, c: Columns, v: MessageTable, k: nat)
    requires |cols| == |who| + 1 && k <= |who|
    ensures DdlCount(cols + [c], who + [v], k) == DdlCount(cols, who, k)
  {
    hide SendsDdl;
    if k > 0 {
      DdlCountPrefix(cols, who, c, v, k - 1);
    }
  }

  lemma RunGrows(versions: seq<MessageTable>, cols: seq<Columns>, who: seq<MessageTable>, c: Columns, v: MessageTable)
    requires SyncRun(versions, cols, who) && v in versions && Syncs(v, cols[|who|], c)
    ensures SyncRun(versions, cols + [c], who + [v])
    ensures DdlCount(cols + [c], who + [v], |who| + 1) == DdlCount(cols, who, |who|) + (if SendsDdl(v, cols[|who|], c) then 1 else 0)
  {
    hide Syncs, SendsDdl, FoldUnique;
    DdlCountPrefix(cols, who, c, v, |who|);
    forall i: nat | i < |who| + 1 ensures (who + [v])[i] in versions && Syncs((who + [v])[i], (cols + [c])[i], (cols + [c])[i + 1]) {
      if i < |who| {
        assert Syncs(who[i], cols[i], cols[i + 1]);
      }
    }
  }

  /** The next sync by field xi's version, on a table where that name carries the other number. */
  lemma FlapOn(versions: seq<MessageTable>, cols: seq<Columns>, who: seq<MessageTable>,
               x: MessageTable, xi: nat, y: MessageTable, yi: nat) returns (after: Columns)
    requires NumbersNamed(versions) && Has(versions, x, xi) && Has(versions, y, yi)
    requires SameName(x, xi, y, yi) && x.fields[xi].number != y.fields[yi].number
    requires SyncRun(versions, cols, who) && Known(versions, cols[|who|]) && Placed(cols[|who|], GoalOf(y, yi))
    ensures SyncRun(versions, cols + [after], who + [x]) && Known(versions, after) && Placed(after, GoalOf(x, xi))
    ensures DdlCount(cols + [after], who + [x], |who| + 1) == DdlCount(cols, who, |who|) + 1
  {
    hide Fold, Known, NumbersNamed, AfterAlter, DdlCount, SendsDdl, PlanFields, ColumnsDrift, HasDuplicateNumbers;
    var now := cols[|who|];
    SyncKeepsKnown(versions, x, now);
    after := AfterAlter(now, Plan(x, now));
    var m :| m in now && PlacedAt(now, GoalOf(y, yi), m);
    MisnumberedSendsDdl(versions, x, now, xi, m);
    Sends(x, now);
    RunGrows(versions, cols, who, after, x);
  }

  lemma FlapStart(versions: seq<MessageTable>, v: MessageTable, i: nat) returns (after: Columns)
    requires NumbersNamed(versions) && Has(versions, v, i)
    ensures SyncRun(versions, [map[], after], [v]) && Known(versions, after) && Placed(after, GoalOf(v, i))
  {
    hide Known, NumbersNamed, AfterAlter, PlanFields, ColumnsDrift, HasDuplicateNumbers;
    EmptyTable(versions);
    SyncKeepsKnown(versions, v, map[]);
    after := AfterAlter(map[], Plan(v, map[]));
    RunGrows(versions, [map[]], [], after, v);
    assert [map[]] + [after] == [map[], after] && [] + [v] == [v];
  }

  /** Two versions that give one name two numbers, taking turns from an empty table: after the first
      sync every sync sends column DDL. */
  lemma {:induction false} OneNameTwoNumbersFlaps(versions: seq<MessageTable>, v: MessageTable, i: nat, w: MessageTable, j: nat, n: nat)
    returns (cols: seq<Columns>, who: seq<MessageTable>)
    requires NumbersNamed(versions) && Has(versions, v, i) && Has(versions, w, j)
    requires SameName(v, i, w, j) && v.fields[i].number != w.fields[j].number
    ensures SyncRun(versions, cols, who) && cols[0] == map[] && |who| == n + 1 && DdlCount(cols, who, n + 1) >= n
    ensures Known(versions, cols[n + 1]) && Placed(cols[n + 1], GoalOf(v, i))
    decreases n
  {
    hide Known, NumbersNamed, DdlCount, Syncs, Placed;
    if n == 0 {
      var after := FlapStart(versions, v, i);
      cols, who := [map[], after], [v];
    } else {
      cols, who := OneNameTwoNumbersFlaps(versions, w, j, v, i, n - 1);
      var after := FlapOn(versions, cols, who, v, i, w, j);
      cols, who := cols + [after], who + [v];
    }
  }

  lemma EmptyTable(versions: seq<MessageTable>)
    ensures Known(versions, map[]) && SyncRun(versions, [map[]], [])
  {
  }

  lemma Sends(v: MessageTable, cols: Columns)
    requires Goes(v, cols) && Plan(v, cols) != []
    ensures SendsDdl(v, cols, AfterAlter(cols, Plan(v, cols)))
  {
  }

  // ---------------------------------------------------------------- exactly

  lemma {:induction false} GoalComesFrom(versions: seq<MessageTable>, g: Goal) returns (v: MessageTable, i: nat)
    requires g in AllGoals(versions)
    ensures Has(versions, v, i) && g == GoalOf(v, i)
  {
    if g in GoalsOf(versions[0]) {
      v := versions[0];
      i :| 0 <= i < |v.fields| && GoalsOf(v)[i] == g;
    } else {
      v, i := GoalComesFrom(versions[1..], g);
    }
  }

  lemma BothWaysAgree(versions: seq<MessageTable>)
    requires NumbersNamed(versions) && NamesNumbered(versions)
    ensures Agree(versions)
  {
    hide Fold, AllGoals, TargetType, Alike;
    forall g, h | g in AllGoals(versions) && h in AllGoals(versions) ensures Fold(g.name) == Fold(h.name) <==> g.number == h.number {
      var v, i := GoalComesFrom(versions, g);
      var w, j := GoalComesFrom(versions, h);
      assert SameName(v, i, w, j) <==> Fold(g.name) == Fold(h.name);
    }
  }

  lemma NumberedRests(versions: seq<MessageTable>)
    requires NumbersNamed(versions) && NamesNumbered(versions)
    ensures BoundedBy(versions, 2 * |AllGoals(versions)|)
  {
    hide NumbersNamed, Syncs, DdlCount, AllGoals, Agree;
    BothWaysAgree(versions);
    forall cols, who | SyncRun(versions, cols, who) ensures DdlCount(cols, who, |who|) <= 2 * |AllGoals(versions)| {
      NoFlapping(versions, cols, who);
    }
  }

  lemma NeverRests(versions: seq<MessageTable>, v: MessageTable, i: nat, w: MessageTable, j: nat)
    requires NumbersNamed(versions) && Has(versions, v, i) && Has(versions, w, j)
    requires SameName(v, i, w, j) && v.fields[i].number != w.fields[j].number
    ensures !Bounded(versions)
  {
    hide NumbersNamed, DdlCount, SameName, Has, BoundedBy, Known, Placed;
    forall bound: nat ensures !BoundedBy(versions, bound) {
      var cols, who := OneNameTwoNumbersFlaps(versions, v, i, w, j, bound + 1);
      Exceeds(versions, bound, cols, who);
    }
  }

  lemma Exceeds(versions: seq<MessageTable>, bound: nat, cols: seq<Columns>, who: seq<MessageTable>)
    requires SyncRun(versions, cols, who) && DdlCount(cols, who, |who|) > bound
    ensures !BoundedBy(versions, bound)
  {
    hide DdlCount, Syncs;
  }

  /** For versions of any width that name every number once: column DDL is bounded, from every table and
      over every run, exactly when every name also has one number; and then by twice the number of fields
      of all versions. */
  lemma RestsIff(versions: seq<MessageTable>)
    requires NumbersNamed(versions)
    ensures Bounded(versions) <==> NamesNumbered(versions)
    ensures NamesNumbered(versions) ==> BoundedBy(versions, 2 * |AllGoals(versions)|)
  {
    hide NumbersNamed, BoundedBy, AllGoals, SameName;
    if NamesNumbered(versions) {
      NumberedRests(versions);
    } else {
      var v, i: nat, w, j: nat :| Has(versions, v, i) && Has(versions, w, j) && SameName(v, i, w, j)
                                  && v.fields[i].number != w.fields[j].number;
      NeverRests(versions, v, i, w, j);
    }
  }

  // ---------------------------------------------------------------- two such versions

  function OneColumn(number: nat): MessageTable {
    MessageTable([Field("a", number, Int32Kind, false)], [], [], [], "", [], map[])
  }

  /** Column a with number 1 in one version and 2 in the other: nothing the promise forbids, and no end. */
  lemma OneColumnNeverRests()
    ensures NumbersNamed([OneColumn(1), OneColumn(2)]) && !Bounded([OneColumn(1), OneColumn(2)])
  {
    hide Fold, Bounded, TargetType, ValidOptions, ValidDescriptor, FoldDistinct, Alike;
    var versions := [OneColumn(1), OneColumn(2)];
    ValidOneColumn(1);
    ValidOneColumn(2);
    forall v, i: nat, w, j: nat | Has(versions, v, i) && Has(versions, w, j) ensures SameName(v, i, w, j) && Alike(v, i, w, j) {
      OneColumnsAlike(v.fields[0].number, w.fields[0].number);
    }
    assert versions[0] in versions && versions[1] in versions;
    NeverRests(versions, OneColumn(1), 0, OneColumn(2), 0);
  }

  lemma OneColumnsAlike(a: nat, b: nat)
    ensures Alike(OneColumn(a), 0, OneColumn(b), 0)
  {
    assert !IsKeyColumn(OneColumn(a), OneColumn(a).fields[0]);
  }

  lemma ValidOneColumn(number: nat)
    requires number > 0
    ensures ValidDescriptor(OneColumn(number)) && ValidOptions(OneColumn(number)) && FoldDistinct(OneColumn(number))
  {
    assert DeclaredKeys(OneColumn(number)) == [];
  }
}
