/** The column half of the schema planner: match every declared field to an online column, first by
    name, then by field number, and write the ALTER clauses that align it. */
module ColumnPlanner {
  import opened Wrappers
  import opened ColumnTypes
  import opened TableDef

  /** One online column; fieldNum is the N of its comment `pb:N`, 0 without one. */
  datatype ColumnMeta = ColumnMeta(
    body: TypeBody, fieldNum: nat, nullable: bool, default_: Default, autoIncrement: bool, collation: string)

  type Columns = map<string, ColumnMeta>

  datatype Clause =
    | Modify(column: string, def: ColumnDef, number: nat)
    | Change(old_: string, column: string, def: ColumnDef, number: nat)
    | Add(column: string, def: ColumnDef, number: nat)

  datatype PlanError = SchemaDrift | UnsafeConversion | FieldNumberReused | ExpandOnlyViolation

  datatype Result<+T> = Ok(value: T) | Err(error: PlanError)

  // ---------------------------------------------------------------- matching fields to columns

  /** Columns whose name equals this one up to case. */
  function Candidates(cols: Columns, name: string): set<string> {
    set n | n in cols && Fold(n) == Fold(name)
  }

  /** Columns carrying this field number. */
  function Owners(cols: Columns, number: nat): set<string> {
    set n | n in cols && cols[n].fieldNum == number
  }

  function Only(s: set<string>): (x: string)
    requires |s| == 1
    ensures s == {x}
  {
    SingletonHasOne(s);
    var x :| x in s;
    x
  }

  lemma SingletonHasOne(s: set<string>)
    requires |s| == 1
    ensures forall x, y :: x in s && y in s ==> x == y
    ensures forall x :: x in s ==> s == {x}
  {
    var z :| z in s;
    assert |s - {z}| == 0;
    assert s - {z} == {};
  }

  /** Columns not claimed yet. */
  function Left(online: Columns, claims: seq<Option<string>>): Columns {
    map n | n in online && Some(n) !in claims :: online[n]
  }

  /** The column a field takes among those left: its namesake, else the one with its number. */
  function Claim(online: Columns, left: Columns, f: Field): Option<string> {
    var named := Candidates(left, f.name);
    var owners := Owners(online, f.number);
    if |named| == 1 then Some(Only(named))
    else if |named| == 0 && |owners| == 1 && Only(owners) in left then Some(Only(owners))
    else None
  }

  /** Claims field by field, in declaration order. */
  function Claims(online: Columns, fields: seq<Field>): (claims: seq<Option<string>>)
    ensures |claims| == |fields|
  {
    if fields == [] then []
    else
      var before := Claims(online, fields[..|fields| - 1]);
      before + [Claim(online, Left(online, before), fields[|fields| - 1])]
  }

  // ---------------------------------------------------------------- one field

  function AlignedDef(online: ColumnMeta, target: ColumnDef): ColumnDef {
    target.(body := AlignedType(online.body, target.body))
  }

  /** What becomes of one field: no clause, a clause, or a refusal of the whole plan. */
  function Decide(t: MessageTable, online: Columns, left: Columns, f: Field): Result<Option<Clause>> {
    var target := TargetType(t, f);
    if |Candidates(left, f.name)| > 1 then Err(SchemaDrift)
    else
      match Claim(online, left, f)
      case None => Ok(Some(Add(f.name, target, f.number)))
      case Some(c) =>
        if c !in online then Err(SchemaDrift)
        else
          var meta := online[c];
          if Fold(c) == Fold(f.name) then
            if IsTypeMatch(meta.body, target.body) && meta.fieldNum == f.number then Ok(None)
            else if !IsRenameConvertible(meta.body, target.body) then Err(UnsafeConversion)
            else if UnsafeSignednessChange(meta.body, target.body) then Err(UnsafeConversion)
            else Ok(Some(Modify(f.name, AlignedDef(meta, target), f.number)))
          else
            if UnsafeSignednessChange(meta.body, target.body) then Err(UnsafeConversion)
            else if !IsRenameConvertible(meta.body, target.body) then Err(FieldNumberReused)
            else Ok(Some(Change(c, f.name, AlignedDef(meta, target), f.number)))
  }

  // ---------------------------------------------------------------- the plan

  predicate HasDuplicateNumbers(online: Columns) {
    exists a, b | a in online && b in online :: a != b && online[a].fieldNum == online[b].fieldNum != 0
  }

  function LeftBefore(t: MessageTable, online: Columns, i: nat): Columns
    requires i <= |t.fields|
  {
    Left(online, Claims(online, t.fields[..i]))
  }

  function Decision(t: MessageTable, online: Columns, i: nat): Result<Option<Clause>>
    requires i < |t.fields|
  {
    Decide(t, online, LeftBefore(t, online, i), t.fields[i])
  }

  /** Clauses for the first n fields. */
  function PlanFields(t: MessageTable, online: Columns, n: nat): Result<seq<Clause>>
    requires n <= |t.fields|
  {
    if n == 0 then Ok([])
    else
      match PlanFields(t, online, n - 1)
      case Err(e) => Err(e)
      case Ok(before) =>
        match Decision(t, online, n - 1)
        case Err(e) => Err(e)
        case Ok(None) => Ok(before)
        case Ok(Some(clause)) => Ok(before + [clause])
  }

  function PlanColumns(t: MessageTable, online: Columns, expandOnly: bool): Result<seq<Clause>> {
    if HasDuplicateNumbers(online) then Err(SchemaDrift)
    else
      match PlanFields(t, online, |t.fields|)
      case Err(e) => Err(e)
      case Ok(clauses) =>
        if expandOnly && exists c | c in clauses :: !c.Add? then Err(ExpandOnlyViolation) else Ok(clauses)
  }

  // ---------------------------------------------------------------- the loop itself

  /** Number to column, refused as soon as two columns carry one number. */
  method IndexByNumber(online: Columns) returns (ok: bool, byNumber: map<nat, string>)
    ensures ok <==> !HasDuplicateNumbers(online)
    ensures ok ==> Indexes(byNumber, online)
  {
    byNumber := map[];
    var todo := online.Keys;
    while todo != {}
      invariant todo <= online.Keys
      invariant forall k :: k in byNumber ==>
        k != 0 && byNumber[k] in online && byNumber[k] !in todo && online[byNumber[k]].fieldNum == k
      invariant forall n :: n in online && n !in todo && online[n].fieldNum != 0 ==>
        online[n].fieldNum in byNumber && byNumber[online[n].fieldNum] == n
    {
      var n :| n in todo;
      todo := todo - {n};
      var k := online[n].fieldNum;
      if k != 0 {
        if k in byNumber {
          assert online[byNumber[k]].fieldNum == online[n].fieldNum != 0;
          return false, byNumber;
        }
        byNumber := byNumber[k := n];
      }
    }
    forall k | k in byNumber ensures Owners(online, k) == {byNumber[k]} {
    }
    ok := true;
  }

  /** byNumber is the index of the online field numbers. */
  ghost predicate Indexes(byNumber: map<nat, string>, online: Columns) {
    && (forall k :: k in byNumber <==> k != 0 && Owners(online, k) != {})
    && (forall k :: k in byNumber ==> Owners(online, k) == {byNumber[k]})
  }

  /** One turn of the loop: a column of the same name, else one with the field's number, else a new one. */
  method AlignField(t: MessageTable, f: Field, remaining: Columns, byNumber: map<nat, string>, ghost online: Columns)
    returns (r: Result<Option<Clause>>, claimed: Option<string>)
    requires f.number > 0 && Indexes(byNumber, online)
    requires forall n :: n in remaining ==> n in online && remaining[n] == online[n]
    ensures r == Decide(t, online, remaining, f)
    ensures claimed == Claim(online, remaining, f)
  {
    var target := TargetType(t, f);
    var named := Candidates(remaining, f.name);
    if |named| > 1 {
      return Err(SchemaDrift), None;
    }
    if |named| == 1 {
      var c := Only(named);
      assert c in named;
      var meta := remaining[c];
      claimed := Some(c);
      if !IsTypeMatch(meta.body, target.body) || meta.fieldNum != f.number {
        if !IsRenameConvertible(meta.body, target.body) || UnsafeSignednessChange(meta.body, target.body) {
          return Err(UnsafeConversion), claimed;
        }
        return Ok(Some(Modify(f.name, AlignedDef(meta, target), f.number))), claimed;
      }
      return Ok(None), claimed;
    }
    if f.number in byNumber && byNumber[f.number] in remaining {
      var c := byNumber[f.number];
      assert Owners(online, f.number) == {c};
      var meta := remaining[c];
      claimed := Some(c);
      if UnsafeSignednessChange(meta.body, target.body) {
        return Err(UnsafeConversion), claimed;
      }
      if !IsRenameConvertible(meta.body, target.body) {
        return Err(FieldNumberReused), claimed;
      }
      NotItsName(remaining, f.name, c);
      return Ok(Some(Change(c, f.name, AlignedDef(meta, target), f.number))), claimed;
    }
    if |Owners(online, f.number)| == 1 {
      assert f.number in byNumber;
    }
    return Ok(Some(Add(f.name, target, f.number))), None;
  }

  lemma NotItsName(cols: Columns, name: string, c: string)
    requires |Candidates(cols, name)| == 0 && c in cols
    ensures Fold(c) != Fold(name)
  {
    assert Candidates(cols, name) == {};
    assert c !in Candidates(cols, name);
  }

  /** The planner's loop: claimed columns leave `remaining`, clauses are appended in field order. */
  method BuildColumnClauses(t: MessageTable, online: Columns, expandOnly: bool) returns (r: Result<seq<Clause>>)
    requires ValidDescriptor(t)
    ensures r == PlanColumns(t, online, expandOnly)
  {
    hide HasDuplicateNumbers, Decide, Claim, Candidates, Owners;
    var ok, byNumber := IndexByNumber(online);
    if !ok {
      return Err(SchemaDrift);
    }
    var remaining := online;
    var clauses: seq<Clause> := [];
    for i := 0 to |t.fields|
      invariant remaining == LeftBefore(t, online, i)
      invariant PlanFields(t, online, i) == Ok(clauses)
    {
      StepOfPlan(t, online, i);
      assert t.fields[i] in t.fields;
      var step, claimed := AlignField(t, t.fields[i], remaining, byNumber, online);
      if step.Err? {
        PlanStopsAt(t, online, i);
        return Err(step.error);
      }
      if step.value.Some? {
        clauses := clauses + [step.value.value];
      }
      if claimed.Some? {
        remaining := remaining - {claimed.value};
      }
    }
    if expandOnly && exists c | c in clauses :: !c.Add? {
      return Err(ExpandOnlyViolation);
    }
    return Ok(clauses);
  }

  /** What is left after field i. */
  lemma StepOfPlan(t: MessageTable, online: Columns, i: nat)
    requires i < |t.fields|
    ensures var claim := Claim(online, LeftBefore(t, online, i), t.fields[i]);
      LeftBefore(t, online, i + 1) ==
        if claim.Some? then LeftBefore(t, online, i) - {claim.value} else LeftBefore(t, online, i)
  {
    assert t.fields[..i + 1][..i] == t.fields[..i];
  }

  lemma {:induction false} ErrorStays(t: MessageTable, online: Columns, i: nat, n: nat)
    requires i <= n <= |t.fields| && PlanFields(t, online, i).Err?
    ensures PlanFields(t, online, n) == PlanFields(t, online, i)
  {
    if i < n {
      ErrorStays(t, online, i, n - 1);
    }
  }

  lemma PlanStopsAt(t: MessageTable, online: Columns, i: nat)
    requires i < |t.fields| && PlanFields(t, online, i).Ok? && Decision(t, online, i).Err?
    ensures PlanFields(t, online, |t.fields|) == Err(Decision(t, online, i).error)
  {
    ErrorStays(t, online, i + 1, |t.fields|);
  }

  // ---------------------------------------------------------------- facts about claims

  /** A physical table has no two column names that differ in case only. */
  ghost predicate FoldUnique(cols: Columns) {
    forall a, b :: a in cols && b in cols && Fold(a) == Fold(b) ==> a == b
  }

  lemma ClaimIsLeft(online: Columns, left: Columns, f: Field)
    requires Claim(online, left, f).Some?
    ensures var c := Claim(online, left, f).value;
      c in left && (Fold(c) == Fold(f.name) || c in Owners(online, f.number))
  {
    var c := Claim(online, left, f).value;
    if |Candidates(left, f.name)| == 1 {
      assert c in Candidates(left, f.name);
    }
  }

  /** No column is claimed for two fields, and only columns that are there are claimed. */
  lemma {:induction false} ClaimsAreInjective(online: Columns, fields: seq<Field>)
    ensures var cs := Claims(online, fields);
      && (forall i :: 0 <= i < |cs| && cs[i].Some? ==>
            cs[i].value in online
            && (Fold(cs[i].value) == Fold(fields[i].name) || online[cs[i].value].fieldNum == fields[i].number))
      && (forall i, j :: 0 <= i < j < |cs| && cs[i].Some? ==> cs[i] != cs[j])
  {
    if fields != [] {
      var n := |fields| - 1;
      ClaimsAreInjective(online, fields[..n]);
      var before := Claims(online, fields[..n]);
      var left := Left(online, before);
      if Claim(online, left, fields[n]).Some? {
        ClaimIsLeft(online, left, fields[n]);
      }
    }
  }

  lemma {:induction false} ClaimsPrefix(online: Columns, fields: seq<Field>, i: nat)
    requires i <= |fields|
    ensures Claims(online, fields)[..i] == Claims(online, fields[..i])
  {
    if i == |fields| {
      assert fields[..i] == fields;
      assert Claims(online, fields)[..i] == Claims(online, fields);
    } else {
      var n := |fields| - 1;
      ClaimsPrefix(online, fields[..n], i);
      assert fields[..n][..i] == fields[..i];
      var all, before := Claims(online, fields), Claims(online, fields[..n]);
      assert all[..i] == before[..i];
    }
  }

  lemma ClaimAt(online: Columns, fields: seq<Field>, i: nat)
    requires i < |fields|
    ensures Claims(online, fields)[i] == Claim(online, Left(online, Claims(online, fields[..i])), fields[i])
  {
    ClaimsPrefix(online, fields, i + 1);
    assert fields[..i + 1][..i] == fields[..i];
    var all := Claims(online, fields);
    assert all[i] == all[..i + 1][i];
  }
}
