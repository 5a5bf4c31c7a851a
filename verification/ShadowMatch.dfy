/** The shadow copy and the planner match fields to columns in different orders; here is exactly when
    they agree. */
module ShadowMatch {
  import opened Wrappers
  import opened ColumnTypes
  import opened TableDef
  import opened ColumnPlanner
  import opened AlterTable
  import opened ShadowTable

  /** Some field is named like this column. */
  ghost predicate IsNamesake(fields: seq<Field>, d: string) {
    exists h :: 0 <= h < |fields| && Fold(fields[h].name) == Fold(d)
  }

  ghost predicate HasNamesake(online: Columns, f: Field) {
    exists m :: m in online && Fold(m) == Fold(f.name)
  }

  /** Names first: the namesake, else the column with the number unless it is some field's namesake. */
  ghost predicate NamesFirst(online: Columns, fields: seq<Field>, i: nat, claim: Option<string>)
    requires i < |fields|
  {
    && (forall m :: m in online && Fold(m) == Fold(fields[i].name) ==> claim == Some(m))
    && (!HasNamesake(online, fields[i]) ==>
          forall d :: d in online && online[d].fieldNum == fields[i].number ==>
            claim == if IsNamesake(fields, d) then None else Some(d))
    && (!HasNamesake(online, fields[i]) && (forall d :: d in online ==> online[d].fieldNum != fields[i].number) ==> claim == None)
  }

  lemma NamesFirstIsUnique(online: Columns, fields: seq<Field>, i: nat, a: Option<string>, b: Option<string>)
    requires i < |fields| && NamesFirst(online, fields, i, a) && NamesFirst(online, fields, i, b)
    ensures a == b
  {
    hide Fold, IsNamesake;
    if HasNamesake(online, fields[i]) {
      var m :| m in online && Fold(m) == Fold(fields[i].name);
    } else if d :| d in online && online[d].fieldNum == fields[i].number {
    }
  }

  /** A valid message and a physical table whose numbers are unique. */
  ghost predicate Sane(t: MessageTable, online: Columns) {
    ValidDescriptor(t) && FoldDistinct(t) && FoldUnique(online) && !HasDuplicateNumbers(online)
  }

  lemma OneOwner(t: MessageTable, online: Columns, i: nat, d: string)
    requires Sane(t, online) && i < |t.fields| && d in online && online[d].fieldNum == t.fields[i].number
    ensures Owners(online, t.fields[i].number) == {d}
  {
    hide Fold, FoldDistinct;
    assert t.fields[i] in t.fields;
  }

  // ---------------------------------------------------------------- the shadow copy is names-first

  lemma {:induction false} NamedByName(online: Columns, fields: seq<Field>)
    ensures var named := NamePass(online, fields);
      forall i :: 0 <= i < |fields| && named[i].Some? ==> named[i].value in online && Fold(named[i].value) == Fold(fields[i].name)
  {
    hide Fold;
    if fields != [] {
      var n := |fields| - 1;
      NamedByName(online, fields[..n]);
      var left := Left(online, NamePass(online, fields[..n]));
      if NameClaim(left, fields[n]).Some? {
        assert NameClaim(left, fields[n]).value in Candidates(left, fields[n].name);
      }
    }
  }

  /** The name pass finds every namesake, and only those. */
  lemma NamesakesAreFound(t: MessageTable, online: Columns, i: nat)
    requires Sane(t, online) && i < |t.fields|
    ensures forall m :: m in online && Fold(m) == Fold(t.fields[i].name) ==> NamePass(online, t.fields)[i] == Some(m)
    ensures !HasNamesake(online, t.fields[i]) ==> NamePass(online, t.fields)[i] == None
  {
    hide Fold, NamePass;
    NamePassAt(online, t.fields, i);
    NamedByName(online, t.fields);
    var before := NamePass(online, t.fields[..i]);
    NamedByName(online, t.fields[..i]);
    forall m | m in online && Fold(m) == Fold(t.fields[i].name) ensures NamePass(online, t.fields)[i] == Some(m) {
      forall j | 0 <= j < |before| ensures before[j] != Some(m) {
        if before[j] == Some(m) {
          SameFold(t, i, j);
        }
      }
      assert Candidates(Left(online, before), t.fields[i].name) == {m};
    }
  }

  lemma {:induction false} NumberPassKeeps(online: Columns, fields: seq<Field>, named: seq<Option<string>>, j: nat, n: nat)
    requires |named| == |fields| && j < n <= |fields|
    ensures NumberPass(online, fields, named, n)[j] == NumberPass(online, fields, named, j + 1)[j]
  {
    if j + 1 < n {
      NumberPassKeeps(online, fields, named, j, n - 1);
    }
  }

  /** At its turn a field without a namesake finds its number's column, unless that is a namesake. */
  lemma FreeAtItsTurn(t: MessageTable, online: Columns, i: nat, d: string)
    requires Sane(t, online) && i < |t.fields| && !HasNamesake(online, t.fields[i])
    requires d in online && online[d].fieldNum == t.fields[i].number
    ensures var before := NumberPass(online, t.fields, NamePass(online, t.fields), i);
      Some(d) in before <==> IsNamesake(t.fields, d)
  {
    hide Fold, NamePass, NumberPass, HasDuplicateNumbers;
    var named := NamePass(online, t.fields);
    var before := NumberPass(online, t.fields, named, i);
    NamePassIsSound(online, t.fields);
    NumberPassIsSound(online, t.fields, named, i);
    NamesakesAreFound(t, online, i);
    NumberPassFrame(online, t.fields, named, i, i);
    if j :| 0 <= j < |before| && before[j] == Some(d) {
      assert Fold(t.fields[j].name) == Fold(d);
    }
    if h :| 0 <= h < |t.fields| && Fold(t.fields[h].name) == Fold(d) {
      NamesakesAreFound(t, online, h);
      NumberPassFrame(online, t.fields, named, i, h);
      assert before[h] == Some(d);
    }
  }

  lemma ShadowIsNamesFirst(t: MessageTable, online: Columns, i: nat)
    requires Sane(t, online) && i < |t.fields|
    ensures NamesFirst(online, t.fields, i, ShadowClaims(online, t.fields)[i])
  {
    hide Fold, NamePass, HasDuplicateNumbers, IsNamesake;
    var named := NamePass(online, t.fields);
    NamesakesAreFound(t, online, i);
    if HasNamesake(online, t.fields[i]) {
      NumberPassFrame(online, t.fields, named, |t.fields|, i);
    } else {
      NumberPassKeeps(online, t.fields, named, i, |t.fields|);
      var left := Left(online, NumberPass(online, t.fields, named, i));
      forall d | d in online && online[d].fieldNum == t.fields[i].number
        ensures NumberClaim(left, t.fields[i]) == if IsNamesake(t.fields, d) then None else Some(d)
      {
        FreeAtItsTurn(t, online, i, d);
        OneOwner(t, online, i, d);
        assert forall n :: n in Owners(left, t.fields[i].number) ==> n in Owners(online, t.fields[i].number);
        assert d in left <==> !IsNamesake(t.fields, d);
        assert Owners(left, t.fields[i].number) == if IsNamesake(t.fields, d) then {} else {d};
      }
    }
  }

  // ---------------------------------------------------------------- when the planner is, too

  /** An earlier field whose number sits on the namesake of a later one, and that has no namesake itself. */
  ghost predicate BadPair(t: MessageTable, online: Columns, g: nat, f: nat, d: string) {
    && g < f < |t.fields| && d in online
    && Fold(d) == Fold(t.fields[f].name) && online[d].fieldNum == t.fields[g].number
    && !HasNamesake(online, t.fields[g])
  }

  ghost predicate NoBadPair(t: MessageTable, online: Columns) {
    forall g, f, d :: !BadPair(t, online, g, f, d)
  }

  lemma {:induction false} PlannerIsNamesFirst(t: MessageTable, online: Columns, i: nat)
    requires Sane(t, online) && NoBadPair(t, online) && i < |t.fields|
    ensures NamesFirst(online, t.fields, i, Claims(online, t.fields)[i])
  {
    hide Fold, Claims, HasDuplicateNumbers;
    var claims := Claims(online, t.fields);
    ClaimAt(online, t.fields, i);
    ClaimsPrefix(online, t.fields, i);
    ClaimsAreInjective(online, t.fields);
    var left := Left(online, claims[..i]);
    forall j | 0 <= j < i ensures NamesFirst(online, t.fields, j, claims[j]) {
      PlannerIsNamesFirst(t, online, j);
    }
    if m :| m in online && Fold(m) == Fold(t.fields[i].name) {
      NamesakeIsLeft(t, online, i, m);
      NamesakeIsClaimed(online, left, t.fields[i], m);
      assert forall n :: n in online && Fold(n) == Fold(t.fields[i].name) ==> n == m;
    } else {
      assert Candidates(left, t.fields[i].name) == {};
      if d :| d in online && online[d].fieldNum == t.fields[i].number {
        OneOwner(t, online, i, d);
        OwnerIsLeft(t, online, i, d);
        assert forall e :: e in online && online[e].fieldNum == t.fields[i].number ==> e in Owners(online, t.fields[i].number);
      } else {
        assert Owners(online, t.fields[i].number) == {};
      }
    }
  }

  lemma NamesakeIsLeft(t: MessageTable, online: Columns, i: nat, m: string)
    requires Sane(t, online) && NoBadPair(t, online) && i < |t.fields|
    requires m in online && Fold(m) == Fold(t.fields[i].name)
    requires forall j :: 0 <= j < i ==> NamesFirst(online, t.fields, j, Claims(online, t.fields)[j])
    ensures m in Left(online, Claims(online, t.fields)[..i])
  {
    hide Fold, Claims, HasDuplicateNumbers;
    var claims := Claims(online, t.fields);
    ClaimsAreInjective(online, t.fields);
    forall j | 0 <= j < i ensures claims[j] != Some(m) {
      assert !BadPair(t, online, j, i, m);
    }
  }

  lemma OwnerIsLeft(t: MessageTable, online: Columns, i: nat, d: string)
    requires Sane(t, online) && NoBadPair(t, online) && i < |t.fields| && !HasNamesake(online, t.fields[i])
    requires d in online && online[d].fieldNum == t.fields[i].number
    requires forall j :: 0 <= j < i ==> NamesFirst(online, t.fields, j, Claims(online, t.fields)[j])
    ensures d in Left(online, Claims(online, t.fields)[..i]) <==> !IsNamesake(t.fields, d)
  {
    hide Fold, Claims, HasDuplicateNumbers;
    var claims := Claims(online, t.fields);
    ClaimsAreInjective(online, t.fields);
    if j :| 0 <= j < i && claims[j] == Some(d) {
      assert Fold(t.fields[j].name) == Fold(d);
    }
    if h :| 0 <= h < |t.fields| && Fold(t.fields[h].name) == Fold(d) {
      assert !BadPair(t, online, i, h, d);
      assert claims[h] == Some(d);
      assert claims[..i][h] == Some(d);
    }
  }

  /** The first half of a bad pair: the planner gives it the later field's column, the copy does not. */
  lemma BadPairDiffers(t: MessageTable, online: Columns, g: nat, f: nat, d: string)
    requires Sane(t, online) && BadPair(t, online, g, f, d)
    ensures Claims(online, t.fields)[g] == Some(d) && ShadowClaims(online, t.fields)[g] == None
  {
    hide Fold, Claims, HasDuplicateNumbers, ShadowClaims;
    var claims := Claims(online, t.fields);
    ShadowIsNamesFirst(t, online, g);
    assert IsNamesake(t.fields, d);
    ClaimAt(online, t.fields, g);
    ClaimsPrefix(online, t.fields, g);
    ClaimsAreInjective(online, t.fields);
    var left := Left(online, claims[..g]);
    forall j | 0 <= j < g ensures claims[j] != Some(d) {
      SameFold(t, j, f);
    }
    assert d in left;
    assert Candidates(left, t.fields[g].name) == {};
    OneOwner(t, online, g, d);
  }

  /** The shadow copy reads the columns the planner would align, exactly when there is no bad pair. */
  lemma MatchersAgreeIff(t: MessageTable, online: Columns)
    requires Sane(t, online)
    ensures ShadowClaims(online, t.fields) == Claims(online, t.fields) <==> NoBadPair(t, online)
  {
    hide Fold, Claims, HasDuplicateNumbers, ShadowClaims, BadPair, NamesFirst;
    var shadow, plan := ShadowClaims(online, t.fields), Claims(online, t.fields);
    if NoBadPair(t, online) {
      forall i | 0 <= i < |t.fields| ensures shadow[i] == plan[i] {
        ShadowIsNamesFirst(t, online, i);
        PlannerIsNamesFirst(t, online, i);
        NamesFirstIsUnique(online, t.fields, i, shadow[i], plan[i]);
      }
    } else {
      var g, f, d :| BadPair(t, online, g, f, d);
      BadPairIsInRange(t, online, g, f, d);
      BadPairDiffers(t, online, g, f, d);
    }
  }

  lemma BadPairIsInRange(t: MessageTable, online: Columns, g: nat, f: nat, d: string)
    requires BadPair(t, online, g, f, d)
    ensures g < f < |t.fields|
  {
  }

  // ---------------------------------------------------------------- a renamed field and a new one under its old name

  function RenamedTable(): MessageTable {
    MessageTable([Field("nickname", 2, StringKind, false), Field("name", 3, StringKind, false)], [], [], [], "", [], map[])
  }

  function RenamedOnline(): Columns {
    map["name" := ColumnMeta(Plain(MediumText), 2, true, NoDefault, false, "")]
  }

  /** Number 2 was renamed from name to nickname, and a new field took the old name: the planner renames
      the column, the copy fills the new field with the old data and leaves the renamed one empty. */
  lemma RenamedDataGoesToTheNewField()
    ensures var t, online := RenamedTable(), RenamedOnline();
      && Sane(t, online) && BadPair(t, online, 0, 1, "name")
      && Claims(online, t.fields)[0] == Some("name") && Claims(online, t.fields)[1] != Some("name")
      && ShadowClaims(online, t.fields) == [None, Some("name")]
  {
    hide Claims, ShadowClaims;
    var t, online := RenamedTable(), RenamedOnline();
    assert |Fold("nickname")| != |Fold("name")|;
    BadPairDiffers(t, online, 0, 1, "name");
    ClaimsAreInjective(online, t.fields);
    ShadowIsNamesFirst(t, online, 1);
  }
}
