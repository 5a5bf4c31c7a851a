/** Runs of schema syncs by any mix of versions over one physical table. A sync holds the advisory lock
    from reading the metadata to the last ALTER, so it is one step. */
module SchemaSync {
  import opened Wrappers
  import opened ColumnTypes
  import opened TableDef
  import opened ColumnPlanner
  import opened AlterTable
  import opened SchemaPlan
  import opened SchemaConvergence

  /** The sync is not refused: the planner accepts the columns, no attribute drifts, and MySQL can run
      the clauses. */
  ghost predicate Goes(v: MessageTable, before: Columns) {
    Accepted(v, before) && FoldDistinct(v) && !ColumnsDrift(v, before)
  }

  /** One sync by version v: refused, and the table stays as it is, or its plan runs. */
  ghost predicate Syncs(v: MessageTable, before: Columns, after: Columns) {
    after == before || (Goes(v, before) && after == AfterAlter(before, Plan(v, before)))
  }

  /** The sync sent column DDL. */
  ghost predicate SendsDdl(v: MessageTable, before: Columns, after: Columns) {
    Goes(v, before) && Plan(v, before) != [] && after == AfterAlter(before, Plan(v, before))
  }

  /** cols[i] to cols[i + 1] is a sync by version who[i]. */
  ghost predicate SyncRun(versions: seq<MessageTable>, cols: seq<Columns>, who: seq<MessageTable>) {
    && |cols| == |who| + 1
    && FoldUnique(cols[0])
    && forall i: nat :: i < |who| ==> who[i] in versions && Syncs(who[i], cols[i], cols[i + 1])
  }

  // ---------------------------------------------------------------- never narrower, over any run

  /** What the column that was called name before this sync is called after it. */
  ghost function Tracked(v: MessageTable, before: Columns, after: Columns, name: string): string
    requires name in before && Syncs(v, before, after)
  {
    if Goes(v, before) && after == AfterAlter(before, Plan(v, before)) then NameAfter(v, before, name) else name
  }

  lemma TrackedSurvives(v: MessageTable, before: Columns, after: Columns, name: string)
    requires name in before && Syncs(v, before, after)
    ensures Tracked(v, before, after, name) in after
    ensures IsTypeMatch(after[Tracked(v, before, after, name)].body, before[name].body)
  {
    hide NameAfter, ColumnsDrift, AfterAlter, PlanFields, IsTypeMatch;
    if Goes(v, before) && after == AfterAlter(before, Plan(v, before)) {
      ColumnSurvives(v, before, name);
    } else {
      MatchIsTotalPreorder(before[name].body, before[name].body, before[name].body);
    }
  }

  lemma TrackedApart(v: MessageTable, before: Columns, after: Columns, a: string, b: string)
    requires a in before && b in before && a != b && Syncs(v, before, after)
    ensures Tracked(v, before, after, a) != Tracked(v, before, after, b)
  {
    hide NameAfter, ColumnsDrift, AfterAlter, PlanFields;
    if Goes(v, before) && after == AfterAlter(before, Plan(v, before)) {
      ImagesDiffer(v, before, a, b);
    }
  }

  /** What the column that is called name after i syncs is called after k syncs. */
  ghost function Followed(versions: seq<MessageTable>, cols: seq<Columns>, who: seq<MessageTable>, i: nat, k: nat, name: string): (now: string)
    requires SyncRun(versions, cols, who) && i <= k <= |who| && name in cols[i]
    ensures now in cols[k]
    decreases k
  {
    if i == k then name
    else
      var mid := Followed(versions, cols, who, i, k - 1, name);
      assert Syncs(who[k - 1], cols[k - 1], cols[k]);
      TrackedSurvives(who[k - 1], cols[k - 1], cols[k], mid);
      Tracked(who[k - 1], cols[k - 1], cols[k], mid)
  }

  /** Over any run by any versions, whatever they declare, each physical column, followed through its
      renames, only ever gets wider. */
  lemma {:induction false} NeverNarrower(versions: seq<MessageTable>, cols: seq<Columns>, who: seq<MessageTable>, i: nat, k: nat, name: string)
    requires SyncRun(versions, cols, who) && i <= k <= |who| && name in cols[i]
    ensures IsTypeMatch(cols[k][Followed(versions, cols, who, i, k, name)].body, cols[i][name].body)
    decreases k
  {
    hide Syncs, IsTypeMatch, Tracked;
    if i == k {
      MatchIsTotalPreorder(cols[i][name].body, cols[i][name].body, cols[i][name].body);
    } else {
      NeverNarrower(versions, cols, who, i, k - 1, name);
      var mid, now := Followed(versions, cols, who, i, k - 1, name), Followed(versions, cols, who, i, k, name);
      assert Syncs(who[k - 1], cols[k - 1], cols[k]);
      TrackedSurvives(who[k - 1], cols[k - 1], cols[k], mid);
      MatchIsTotalPreorder(cols[k][now].body, cols[k - 1][mid].body, cols[i][name].body);
    }
  }

  /** Following is one to one: two columns never become one, so none is ever dropped. */
  lemma {:induction false} FollowedApart(versions: seq<MessageTable>, cols: seq<Columns>, who: seq<MessageTable>, i: nat, k: nat, a: string, b: string)
    requires SyncRun(versions, cols, who) && i <= k <= |who| && a in cols[i] && b in cols[i] && a != b
    ensures Followed(versions, cols, who, i, k, a) != Followed(versions, cols, who, i, k, b)
    decreases k
  {
    hide Syncs, Tracked;
    if i < k {
      FollowedApart(versions, cols, who, i, k - 1, a, b);
      assert Syncs(who[k - 1], cols[k - 1], cols[k]);
      TrackedApart(who[k - 1], cols[k - 1], cols[k], Followed(versions, cols, who, i, k - 1, a), Followed(versions, cols, who, i, k - 1, b));
    }
  }

  /** Following in two stretches is following over both. */
  lemma {:induction false} FollowedOn(versions: seq<MessageTable>, cols: seq<Columns>, who: seq<MessageTable>, i: nat, j: nat, k: nat, name: string)
    requires SyncRun(versions, cols, who) && i <= j <= k <= |who| && name in cols[i]
    ensures Followed(versions, cols, who, i, k, name) == Followed(versions, cols, who, j, k, Followed(versions, cols, who, i, j, name))
    decreases k
  {
    hide Syncs, Tracked;
    if j < k {
      FollowedOn(versions, cols, who, i, j, k - 1, name);
    }
  }

  lemma ColumnsNeverDrop(versions: seq<MessageTable>, cols: seq<Columns>, who: seq<MessageTable>, i: nat, k: nat)
    requires SyncRun(versions, cols, who) && i <= k <= |who|
    ensures |cols[k]| >= |cols[i]|
  {
    hide Syncs, Followed;
    forall a, b | a in cols[i] && b in cols[i] && a != b
      ensures Followed(versions, cols, who, i, k, a) != Followed(versions, cols, who, i, k, b)
    {
      FollowedApart(versions, cols, who, i, k, a, b);
    }
    ImageCount(cols[i].Keys, cols[k].Keys, n requires n in cols[i] => Followed(versions, cols, who, i, k, n));
  }

  // ---------------------------------------------------------------- what the versions want

  /** One field of one version: the name, number and type it wants a column to have. */
  datatype Goal = Goal(name: string, number: nat, body: TypeBody)

  function GoalOf(v: MessageTable, i: nat): Goal
    requires i < |v.fields|
  {
    Goal(v.fields[i].name, v.fields[i].number, TargetType(v, v.fields[i]).body)
  }

  function GoalsOf(v: MessageTable): (gs: seq<Goal>)
    ensures |gs| == |v.fields|
    ensures forall i :: 0 <= i < |gs| ==> gs[i] == GoalOf(v, i)
  {
    seq(|v.fields|, i requires 0 <= i < |v.fields| => GoalOf(v, i))
  }

  function AllGoals(versions: seq<MessageTable>): seq<Goal> {
    if versions == [] then [] else GoalsOf(versions[0]) + AllGoals(versions[1..])
  }

  lemma {:induction false} GoalIsListed(versions: seq<MessageTable>, v: MessageTable, i: nat)
    requires v in versions && i < |v.fields|
    ensures GoalOf(v, i) in AllGoals(versions)
  {
    if versions[0] == v {
      assert GoalsOf(v)[i] in AllGoals(versions);
    } else {
      GoalIsListed(versions[1..], v, i);
    }
  }

  /** The versions agree on identities: one name (up to case) means one number, and one number one name. */
  ghost predicate Agree(versions: seq<MessageTable>) {
    && (forall v :: v in versions ==> ValidDescriptor(v))
    && (forall g, h :: g in AllGoals(versions) && h in AllGoals(versions) ==>
          (Fold(g.name) == Fold(h.name) <==> g.number == h.number))
  }

  lemma AgreeMeansDistinct(versions: seq<MessageTable>, v: MessageTable)
    requires Agree(versions) && v in versions
    ensures FoldDistinct(v)
  {
    forall i, j | 0 <= i < j < |v.fields| ensures Fold(v.fields[i].name) != Fold(v.fields[j].name) {
      GoalIsListed(versions, v, i);
      GoalIsListed(versions, v, j);
    }
  }

  /** A column of this name carries this number. */
  ghost predicate Placed(cols: Columns, g: Goal) {
    exists n :: n in cols && PlacedAt(cols, g, n)
  }

  predicate PlacedAt(cols: Columns, g: Goal, n: string)
    requires n in cols
  {
    Fold(n) == Fold(g.name) && cols[n].fieldNum == g.number
  }

  /** And it holds the type. */
  ghost predicate Met(cols: Columns, g: Goal) {
    exists n :: n in cols && PlacedAt(cols, g, n) && IsTypeMatch(cols[n].body, g.body)
  }

  ghost function Count(cols: Columns, goals: seq<Goal>): nat {
    if goals == [] then 0
    else Count(cols, goals[1..]) + (if Placed(cols, goals[0]) then 0 else 1) + (if Met(cols, goals[0]) then 0 else 1)
  }

  lemma {:induction false} CountDrops(before: Columns, after: Columns, goals: seq<Goal>)
    requires forall g :: g in goals && Placed(before, g) ==> Placed(after, g)
    requires forall g :: g in goals && Met(before, g) ==> Met(after, g)
    ensures Count(after, goals) <= Count(before, goals) <= 2 * |goals|
    ensures (exists g :: g in goals && ((!Placed(before, g) && Placed(after, g)) || (!Met(before, g) && Met(after, g)))) ==>
      Count(after, goals) < Count(before, goals)
  {
    hide Placed, Met;
    if goals != [] {
      CountDrops(before, after, goals[1..]);
      if g :| g in goals && ((!Placed(before, g) && Placed(after, g)) || (!Met(before, g) && Met(after, g))) {
        assert g == goals[0] || g in goals[1..];
      }
    }
  }

  // ---------------------------------------------------------------- one sync

  /** A column placed for some goal stays placed, and no narrower, through a sync of any version that
      agrees on identities. */
  lemma PlacedStays(versions: seq<MessageTable>, v: MessageTable, before: Columns, g: Goal, n: string)
    requires Agree(versions) && v in versions && g in AllGoals(versions)
    requires Accepted(v, before) && n in before && PlacedAt(before, g, n)
    ensures var after := AfterAlter(before, Plan(v, before));
      exists m :: m in after && PlacedAt(after, g, m) && IsTypeMatch(after[m].body, before[n].body)
  {
    hide Claims, Fold, TargetType, AfterAlter, IsTypeMatch, Unclaimed, PlanFields, FinalName, FinalMeta, ClaimOf, AllGoals;
    AgreeMeansDistinct(versions, v);
    UnclaimedMeans(v, before, n);
    if Unclaimed(v, before, n) {
      UnclaimedStays(v, before, n);
      MatchIsTotalPreorder(before[n].body, before[n].body, before[n].body);
    } else {
      var i :| 0 <= i < |v.fields| && ClaimOf(v, before, i) == Some(n);
      GoalIsListed(versions, v, i);
      ClaimIsNameOrNumber(v, before, i);
      FinalColumnFits(v, before, i);
      FieldApplied(v, before, i);
      var after := AfterAlter(before, Plan(v, before));
      assert PlacedAt(after, g, FinalName(v, before, i));
    }
  }

  lemma ClaimIsNameOrNumber(v: MessageTable, cols: Columns, i: nat)
    requires i < |v.fields| && ClaimOf(v, cols, i).Some?
    ensures var c := ClaimOf(v, cols, i).value;
      c in cols && (Fold(c) == Fold(v.fields[i].name) || cols[c].fieldNum == v.fields[i].number)
  {
    ClaimsAreInjective(cols, v.fields);
  }

  /** A field that has a clause gets its column placed or widened by it. */
  lemma ClauseIsProgress(versions: seq<MessageTable>, v: MessageTable, before: Columns, i: nat)
    requires Agree(versions) && v in versions
    requires Accepted(v, before) && i < |v.fields| && ClauseOf(v, before, i).Some?
    ensures var after := AfterAlter(before, Plan(v, before));
      Placed(after, GoalOf(v, i)) && Met(after, GoalOf(v, i)) && !Met(before, GoalOf(v, i))
  {
    hide Claims, Fold, TargetType, AfterAlter, IsTypeMatch, PlanFields, FinalName, FinalMeta, ClaimOf, AllGoals, AlignedType, Decide;
    var g := GoalOf(v, i);
    var after := AfterAlter(before, Plan(v, before));
    AgreeMeansDistinct(versions, v);
    FinalColumnFits(v, before, i);
    FieldApplied(v, before, i);
    assert PlacedAt(after, g, FinalName(v, before, i));
    if n :| n in before && PlacedAt(before, g, n) && IsTypeMatch(before[n].body, g.body) {
      PlacedIsClaimed(v, before, i, n);
      FieldFacts(v, before, i);
    }
  }

  lemma PlacedIsClaimed(v: MessageTable, before: Columns, i: nat, n: string)
    requires Accepted(v, before) && FoldDistinct(v) && i < |v.fields|
    requires n in before && PlacedAt(before, GoalOf(v, i), n)
    ensures ClaimOf(v, before, i) == Some(n)
  {
    hide Claims, Fold, TargetType, PlanFields, ClaimOf;
    if ClaimOf(v, before, i) != Some(n) {
      NamesakeTaken(v, before, i, n);
      var j :| 0 <= j < i && ClaimOf(v, before, j) == Some(n);
      ClaimIsNameOrNumber(v, before, j);
      SameFold(v, i, j);
    }
  }

  /** Every sync that sends column DDL brings the table closer to what the versions want together. */
  lemma DdlIsProgress(versions: seq<MessageTable>, v: MessageTable, before: Columns, after: Columns)
    requires Agree(versions) && v in versions && Syncs(v, before, after)
    ensures Count(after, AllGoals(versions)) <= Count(before, AllGoals(versions))
    ensures SendsDdl(v, before, after) ==> Count(after, AllGoals(versions)) < Count(before, AllGoals(versions))
  {
    hide Claims, Fold, TargetType, AfterAlter, IsTypeMatch, PlanFields, FinalName, FinalMeta, ClaimOf, AllGoals, Count, ClauseOf, PlacedAt;
    var goals := AllGoals(versions);
    if after == before && !SendsDdl(v, before, after) {
    } else {
      forall g | g in goals && Placed(before, g)
        ensures Placed(after, g)
        ensures Met(before, g) ==> Met(after, g)
      {
        PlacedAndMetStay(versions, v, before, g);
      }
      CountDrops(before, after, goals);
      if SendsDdl(v, before, after) {
        PlanOrigins(v, before, |v.fields|);
        var i := Origins(v, before, |v.fields|)[0];
        ClauseIsProgress(versions, v, before, i);
        GoalIsListed(versions, v, i);
      }
    }
  }

  lemma PlacedAndMetStay(versions: seq<MessageTable>, v: MessageTable, before: Columns, g: Goal)
    requires Agree(versions) && v in versions && g in AllGoals(versions)
    requires Accepted(v, before) && Placed(before, g)
    ensures var after := AfterAlter(before, Plan(v, before));
      Placed(after, g) && (Met(before, g) ==> Met(after, g))
  {
    hide Claims, Fold, TargetType, AfterAlter, IsTypeMatch, PlanFields, AllGoals, PlacedAt;
    var after := AfterAlter(before, Plan(v, before));
    var n :| n in before && PlacedAt(before, g, n);
    PlacedStays(versions, v, before, g, n);
    if Met(before, g) {
      var n :| n in before && PlacedAt(before, g, n) && IsTypeMatch(before[n].body, g.body);
      PlacedStays(versions, v, before, g, n);
      var m :| m in after && PlacedAt(after, g, m) && IsTypeMatch(after[m].body, before[n].body);
      MatchIsTotalPreorder(after[m].body, before[n].body, g.body);
    }
  }

  // ---------------------------------------------------------------- no flapping

  /** How many of the first k syncs sent column DDL. */
  ghost function DdlCount(cols: seq<Columns>, who: seq<MessageTable>, k: nat): nat
    requires |cols| == |who| + 1 && k <= |who|
  {
    if k == 0 then 0
    else DdlCount(cols, who, k - 1) + (if SendsDdl(who[k - 1], cols[k - 1], cols[k]) then 1 else 0)
  }

  lemma {:induction false} DdlSpendsCount(versions: seq<MessageTable>, cols: seq<Columns>, who: seq<MessageTable>, k: nat)
    requires SyncRun(versions, cols, who) && Agree(versions) && k <= |who|
    ensures DdlCount(cols, who, k) + Count(cols[k], AllGoals(versions)) <= Count(cols[0], AllGoals(versions))
  {
    hide Syncs, SendsDdl, Agree, AllGoals, Count;
    if k > 0 {
      DdlSpendsCount(versions, cols, who, k - 1);
      assert Syncs(who[k - 1], cols[k - 1], cols[k]);
      DdlIsProgress(versions, who[k - 1], cols[k - 1], cols[k]);
    }
  }

  /** No flapping: however many syncs of however many replicas run, in any order, at most two for every
      field of every version send column DDL. */
  lemma NoFlapping(versions: seq<MessageTable>, cols: seq<Columns>, who: seq<MessageTable>)
    requires SyncRun(versions, cols, who) && Agree(versions)
    ensures DdlCount(cols, who, |who|) <= 2 * |AllGoals(versions)|
  {
    DdlSpendsCount(versions, cols, who, |who|);
    CountDrops(cols[0], cols[0], AllGoals(versions));
  }

  /** ExpandOnly accepts exactly the plans that redefine no online column. */
  lemma ExpandOnlyIff(v: MessageTable, online: Columns)
    requires Accepted(v, online) && FoldDistinct(v)
    ensures PlanColumns(v, online, true) ==
      if exists n :: n in online && Touched(Plan(v, online), n) then Err(ExpandOnlyViolation) else Ok(Plan(v, online))
  {
    hide PlanFields, LegalAlter, Touches, HasDuplicateNumbers;
    var cs := Plan(v, online);
    PlanIsLegal(v, online);
    if c :| c in cs && !c.Add? {
      var k :| 0 <= k < |cs| && cs[k] == c;
      RedefinesSome(online, cs, k);
    }
    if n :| n in online && Touched(cs, n) {
      var k :| 0 <= k < |cs| && Touches(cs[k], n);
      AddTouchesNothing(cs[k], n);
      assert cs[k] in cs;
    }
  }

  lemma RedefinesSome(online: Columns, cs: seq<Clause>, k: nat)
    requires LegalAlter(online, cs) && k < |cs| && !cs[k].Add?
    ensures exists n :: n in online && Touched(cs, n)
  {
    var n :| n in online && Touches(cs[k], n);
    assert Touched(cs, n);
  }

  lemma AddTouchesNothing(c: Clause, n: string)
    requires Touches(c, n)
    ensures !c.Add?
  {
  }

  /** Under ExpandOnly an accepted plan leaves every existing column exactly as it is. */
  lemma ExpandOnlyTouchesNothing(v: MessageTable, online: Columns)
    requires Accepted(v, online) && FoldDistinct(v)
    requires PlanColumns(v, online, true).Ok?
    ensures PlanColumns(v, online, true) == Ok(Plan(v, online))
    ensures forall n :: n in online ==> n in AfterAlter(online, Plan(v, online)) && AfterAlter(online, Plan(v, online))[n] == online[n]
  {
    hide PlanFields, WrittenColumns, LegalAlter, AfterAlter;
    var cs := Plan(v, online);
    PlanIsLegal(v, online);
    assert forall c :: c in cs ==> c.Add?;
    forall n | n in online ensures n in AfterAlter(online, cs) && AfterAlter(online, cs)[n] == online[n] {
      assert forall i :: 0 <= i < |cs| ==> cs[i] in cs;
      UntouchedStays(online, cs, n);
    }
  }
}
