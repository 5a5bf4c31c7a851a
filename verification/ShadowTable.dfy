/** Rebuilding a table through a shadow copy: which online column feeds which field, first all names,
    then the field numbers that are left. */
module ShadowTable {
  import opened Wrappers
  import opened ColumnTypes
  import opened TableDef
  import opened ColumnPlanner
  import opened AlterTable
  import opened NameOrder

  // ---------------------------------------------------------------- the two passes

  /** Name pass: a field takes its namesake among the columns left. */
  ghost function NameClaim(left: Columns, f: Field): Option<string> {
    var named := Candidates(left, f.name);
    if |named| == 1 then Some(Only(named)) else None
  }

  ghost function NamePass(online: Columns, fields: seq<Field>): (claims: seq<Option<string>>)
    ensures |claims| == |fields|
  {
    if fields == [] then []
    else
      var before := NamePass(online, fields[..|fields| - 1]);
      before + [NameClaim(Left(online, before), fields[|fields| - 1])]
  }

  /** The name of field i fits several of the columns left. */
  ghost predicate Ambiguous(online: Columns, fields: seq<Field>, i: nat)
    requires i < |fields|
  {
    |Candidates(Left(online, NamePass(online, fields[..i])), fields[i].name)| > 1
  }

  /** Number pass: the smallest name among the columns left that carry the number. */
  ghost function NumberClaim(left: Columns, f: Field): Option<string> {
    var owners := Owners(left, f.number);
    if owners == {} then None else Some(Smallest(owners))
  }

  ghost function NumberPass(online: Columns, fields: seq<Field>, named: seq<Option<string>>, n: nat): (claims: seq<Option<string>>)
    requires |named| == |fields| && n <= |fields|
    ensures |claims| == |fields|
  {
    if n == 0 then named
    else
      var before := NumberPass(online, fields, named, n - 1);
      if named[n - 1].Some? then before
      else before[n - 1 := NumberClaim(Left(online, before), fields[n - 1])]
  }

  /** The online column every field is copied from. */
  ghost function ShadowClaims(online: Columns, fields: seq<Field>): (claims: seq<Option<string>>)
    ensures |claims| == |fields|
  {
    NumberPass(online, fields, NamePass(online, fields), |fields|)
  }

  // ---------------------------------------------------------------- the column definitions

  /** A column of the shadow table; source is the online column it is copied from. */
  datatype ShadowColumn = ShadowColumn(source: Option<string>, legacy: bool, def: ColumnDef)

  /** The definition: the target for new, legacy and non-matching columns, else whatever holds both,
      with the online collation unless it is the default one. */
  function ShadowColumnType(t: MessageTable, f: Field, meta: Option<ColumnMeta>, legacy: bool): ColumnDef {
    var target := TargetType(t, f);
    if legacy || meta.None? || !IsTypeMatch(meta.value.body, target.body) then target
    else
      var aligned := AlignedDef(meta.value, target);
      if meta.value.collation == "" || Fold(meta.value.collation) == TABLE_COLLATION || aligned.collation != "" then aligned
      else aligned.(collation := meta.value.collation)
  }

  function NewColumn(t: MessageTable, online: Columns, f: Field, claim: Option<string>, legacy: set<string>): ShadowColumn {
    ShadowColumn(claim, f.name in legacy,
                 ShadowColumnType(t, f, if claim.Some? && claim.value in online then Some(online[claim.value]) else None, f.name in legacy))
  }

  /** The map being filled: one entry for each of these fields, by field name. */
  ghost predicate Filled(columns: map<string, ShadowColumn>, t: MessageTable, online: Columns, claims: seq<Option<string>>,
                         legacy: set<string>, these: set<nat>)
    requires |claims| == |t.fields| && forall i :: i in these ==> i < |t.fields|
  {
    && (forall i :: i in these ==>
          t.fields[i].name in columns && columns[t.fields[i].name] == NewColumn(t, online, t.fields[i], claims[i], legacy))
    && (forall n :: n in columns ==> exists i :: i in these && t.fields[i].name == n)
  }

  ghost function Fields(t: MessageTable): set<nat> {
    set i: nat {:trigger t.fields[i]} | i < |t.fields|
  }

  lemma FillOne(columns: map<string, ShadowColumn>, t: MessageTable, online: Columns, claims: seq<Option<string>>,
                legacy: set<string>, these: set<nat>, i: nat, now: seq<Option<string>>)
    requires ValidDescriptor(t) && |claims| == |now| == |t.fields| && i < |t.fields| && i !in these
    requires forall j :: j in these ==> j < |t.fields| && now[j] == claims[j]
    requires Filled(columns, t, online, claims, legacy, these)
    ensures Filled(columns[t.fields[i].name := NewColumn(t, online, t.fields[i], now[i], legacy)], t, online, now, legacy, these + {i})
  {
    hide NewColumn;
    var name := t.fields[i].name;
    forall j | j in these ensures t.fields[j].name != name {
      assert j < i || i < j;
    }
    forall n | n in columns ensures exists j :: j in these + {i} && t.fields[j].name == n {
      var j :| j in these && t.fields[j].name == n;
      assert j in these + {i};
    }
    assert i in these + {i};
  }

  // ---------------------------------------------------------------- facts about the passes

  lemma {:induction false} NamePassPrefix(online: Columns, fields: seq<Field>, i: nat)
    requires i <= |fields|
    ensures NamePass(online, fields)[..i] == NamePass(online, fields[..i])
  {
    if i == |fields| {
      assert fields[..i] == fields;
      assert NamePass(online, fields)[..i] == NamePass(online, fields);
    } else {
      var n := |fields| - 1;
      NamePassPrefix(online, fields[..n], i);
      assert fields[..n][..i] == fields[..i];
      assert NamePass(online, fields)[..i] == NamePass(online, fields[..n])[..i];
    }
  }

  lemma NamePassAt(online: Columns, fields: seq<Field>, i: nat)
    requires i < |fields|
    ensures NamePass(online, fields)[i] == NameClaim(Left(online, NamePass(online, fields[..i])), fields[i])
  {
    NamePassPrefix(online, fields, i + 1);
    assert fields[..i + 1][..i] == fields[..i];
    assert NamePass(online, fields)[i] == NamePass(online, fields)[..i + 1][i];
  }

  /** The number pass leaves named fields and fields still to come alone. */
  lemma {:induction false} NumberPassFrame(online: Columns, fields: seq<Field>, named: seq<Option<string>>, n: nat, j: nat)
    requires |named| == |fields| && n <= |fields| && j < |fields| && (j >= n || named[j].Some?)
    ensures NumberPass(online, fields, named, n)[j] == named[j]
  {
    if n > 0 {
      NumberPassFrame(online, fields, named, n - 1, j);
    }
  }

  lemma {:induction false} NumberPassSkips(online: Columns, fields: seq<Field>, named: seq<Option<string>>, n: nat, m: nat)
    requires |named| == |fields| && n <= m <= |fields| && forall j :: n <= j < m ==> named[j].Some?
    ensures NumberPass(online, fields, named, m) == NumberPass(online, fields, named, n)
  {
    if n < m {
      NumberPassSkips(online, fields, named, n, m - 1);
    }
  }

  lemma LeftAfter(online: Columns, claims: seq<Option<string>>, i: nat, c: string)
    requires i < |claims| && claims[i].None?
    ensures Left(online, claims[i := Some(c)]) == Left(online, claims) - {c}
  {
    var after := claims[i := Some(c)];
    assert after[i] == Some(c);
    forall n | n in online ensures Some(n) in after <==> Some(n) in claims || n == c {
      if Some(n) in claims {
        var k :| 0 <= k < |claims| && claims[k] == Some(n);
        assert after[k] == Some(n);
      }
    }
  }

  // ---------------------------------------------------------------- the two loops

  method SmallestOwner(remaining: Columns, number: nat) returns (c: Option<string>)
    ensures c == if Owners(remaining, number) == {} then None else Some(Smallest(Owners(remaining, number)))
  {
    c := None;
    var todo := remaining.Keys;
    ghost var seen: set<string> := {};
    while todo != {}
      invariant todo <= remaining.Keys && seen == Owners(remaining, number) - todo
      invariant if c.None? then seen == {} else IsSmallest(c.value, seen)
    {
      var n :| n in todo;
      todo := todo - {n};
      if remaining[n].fieldNum == number {
        if c.Some? {
          BeforeIsTotal(n, c.value);
        }
        if c.None? {
          c := Some(n);
        } else if Before(n, c.value) {
          forall y | y in seen && y != c.value ensures Before(n, y) {
            BeforeIsTransitive(n, c.value, y);
          }
          c := Some(n);
        }
        seen := seen + {n};
      }
    }
    assert seen == Owners(remaining, number);
    if c.Some? {
      SmallestIsUnique(c.value, Smallest(seen), seen);
    }
  }

  /** The fields among the first n that the name pass gave a column. */
  ghost function NamedOf(named: seq<Option<string>>, n: nat): (these: set<nat>)
    requires n <= |named|
    ensures forall i :: i in these <==> 0 <= i < n && named[i].Some?
  {
    set i: nat | i < n && named[i].Some?
  }

  /** First every field by name, claimed columns leaving `remaining`; then the fields without a
      namesake by number. None: a name fits two columns. */
  method ShadowColumns(t: MessageTable, legacy: set<string>, online: Columns) returns (r: Option<map<string, ShadowColumn>>)
    requires ValidDescriptor(t)
    ensures r.None? <==> exists i :: 0 <= i < |t.fields| && Ambiguous(online, t.fields, i)
    ensures r.Some? ==> Filled(r.value, t, online, ShadowClaims(online, t.fields), legacy, Fields(t))
  {
    hide NewColumn, Filled, Left, ValidDescriptor, NamePass, Candidates;
    var remaining := online;
    var byFieldNum: seq<nat> := [];
    var columns: map<string, ShadowColumn> := map[];
    ghost var named := NamePass(online, t.fields);
    NothingFilled(t, online, named, legacy);
    for i := 0 to |t.fields|
      invariant remaining == Left(online, NamePass(online, t.fields[..i]))
      invariant forall j :: 0 <= j < i ==> !Ambiguous(online, t.fields, j)
      invariant Listed(byFieldNum, named, i)
      invariant Filled(columns, t, online, named, legacy, NamedOf(named, i))
    {
      var f := t.fields[i];
      NamePassAt(online, t.fields, i);
      var candidates := Candidates(remaining, f.name);
      LeftAfterNames(online, t.fields, i);
      if |candidates| > 1 {
        assert Ambiguous(online, t.fields, i);
        return None;
      }
      if |candidates| == 0 {
        byFieldNum := byFieldNum + [i];
        assert NamedOf(named, i + 1) == NamedOf(named, i);
      } else {
        var c := Only(candidates);
        remaining := remaining - {c};
        FillOne(columns, t, online, named, legacy, NamedOf(named, i), i, named);
        columns := columns[f.name := NewColumn(t, online, f, Some(c), legacy)];
        assert NamedOf(named, i + 1) == NamedOf(named, i) + {i};
      }
    }
    assert t.fields[..|t.fields|] == t.fields;
    columns := NumberLoop(t, legacy, online, remaining, byFieldNum, columns, named);
    r := Some(columns);
  }

  lemma NothingFilled(t: MessageTable, online: Columns, named: seq<Option<string>>, legacy: set<string>)
    requires |named| == |t.fields|
    ensures Filled(map[], t, online, named, legacy, NamedOf(named, 0))
    ensures Left(online, NamePass(online, t.fields[..0])) == online
  {
  }

  lemma LeftAfterNames(online: Columns, fields: seq<Field>, i: nat)
    requires i < |fields|
    ensures var left := Left(online, NamePass(online, fields[..i]));
      Left(online, NamePass(online, fields[..i + 1])) ==
        if NameClaim(left, fields[i]).Some? then left - {NameClaim(left, fields[i]).value} else left
  {
    hide NameClaim;
    assert fields[..i + 1][..i] == fields[..i];
  }

  /** The fields the name pass left without a column, in order. */
  ghost predicate Listed(byFieldNum: seq<nat>, named: seq<Option<string>>, n: nat)
    requires n <= |named|
  {
    && (forall k :: 0 <= k < |byFieldNum| ==> byFieldNum[k] < n && named[byFieldNum[k]].None?)
    && (forall k, l :: 0 <= k < l < |byFieldNum| ==> byFieldNum[k] < byFieldNum[l])
    && (forall j :: 0 <= j < n && named[j].None? ==> j in byFieldNum)
  }

  /** The named fields and everything before position n. */
  ghost function DoneAt(named: seq<Option<string>>, n: nat): (these: set<nat>)
    requires n <= |named|
    ensures forall i :: i in these <==> 0 <= i < |named| && (named[i].Some? || i < n)
  {
    set i: nat | i < |named| && (named[i].Some? || i < n)
  }

  /** One turn of the number pass: the field takes its column, which leaves the others. */
  lemma NumberStep(t: MessageTable, legacy: set<string>, online: Columns, columns: map<string, ShadowColumn>,
                   named: seq<Option<string>>, upto: nat, i: nat)
    requires ValidDescriptor(t) && |named| == |t.fields| && upto <= i < |t.fields| && named[i].None?
    requires forall j :: upto <= j < i ==> named[j].Some?
    requires Filled(columns, t, online, NumberPass(online, t.fields, named, upto), legacy, DoneAt(named, upto))
    ensures var left := Left(online, NumberPass(online, t.fields, named, upto));
      var c := NumberClaim(left, t.fields[i]);
      && Left(online, NumberPass(online, t.fields, named, i + 1)) == (if c.Some? then left - {c.value} else left)
      && Filled(columns[t.fields[i].name := NewColumn(t, online, t.fields[i], c, legacy)], t, online,
                NumberPass(online, t.fields, named, i + 1), legacy, DoneAt(named, i + 1))
  {
    hide NewColumn, Filled, Left, ValidDescriptor, NumberClaim;
    var before, after := NumberPass(online, t.fields, named, i), NumberPass(online, t.fields, named, i + 1);
    NumberPassSkips(online, t.fields, named, upto, i);
    NumberPassFrame(online, t.fields, named, i, i);
    assert DoneAt(named, i) == DoneAt(named, upto);
    var c := NumberClaim(Left(online, before), t.fields[i]);
    if c.Some? {
      LeftAfter(online, before, i, c.value);
    } else {
      assert after == before;
    }
    FillOne(columns, t, online, before, legacy, DoneAt(named, upto), i, after);
    assert DoneAt(named, i + 1) == DoneAt(named, i) + {i};
  }

  method NumberLoop(t: MessageTable, legacy: set<string>, online: Columns, left: Columns, byFieldNum: seq<nat>,
                    byName: map<string, ShadowColumn>, ghost named: seq<Option<string>>)
    returns (columns: map<string, ShadowColumn>)
    requires ValidDescriptor(t) && named == NamePass(online, t.fields) && left == Left(online, named)
    requires Listed(byFieldNum, named, |t.fields|)
    requires Filled(byName, t, online, named, legacy, NamedOf(named, |t.fields|))
    ensures Filled(columns, t, online, ShadowClaims(online, t.fields), legacy, Fields(t))
  {
    hide NewColumn, Filled, Left, ValidDescriptor, NamePass, Listed;
    var remaining := left;
    columns := byName;
    ghost var upto: nat := 0;
    assert DoneAt(named, 0) == NamedOf(named, |t.fields|);
    for k := 0 to |byFieldNum|
      invariant upto == (if k == 0 then 0 else byFieldNum[k - 1] + 1) && upto <= |t.fields|
      invariant remaining == Left(online, NumberPass(online, t.fields, named, upto))
      invariant Filled(columns, t, online, NumberPass(online, t.fields, named, upto), legacy, DoneAt(named, upto))
    {
      var i := byFieldNum[k];
      SkipTo(online, t.fields, named, byFieldNum, k);
      var c := SmallestOwner(remaining, t.fields[i].number);
      NumberStep(t, legacy, online, columns, named, upto, i);
      if c.Some? {
        remaining := remaining - {c.value};
      }
      columns := columns[t.fields[i].name := NewColumn(t, online, t.fields[i], c, legacy)];
      upto := i + 1;
    }
    AllPassed(named, byFieldNum, upto);
    NumberPassSkips(online, t.fields, named, upto, |t.fields|);
    assert DoneAt(named, upto) == Fields(t);
  }

  lemma AllPassed(named: seq<Option<string>>, byFieldNum: seq<nat>, upto: nat)
    requires Listed(byFieldNum, named, |named|)
    requires upto == if |byFieldNum| == 0 then 0 else byFieldNum[|byFieldNum| - 1] + 1
    ensures forall j :: upto <= j < |named| ==> named[j].Some?
  {
    assert forall l :: 0 <= l < |byFieldNum| ==> byFieldNum[l] < upto;
  }

  lemma SkipTo(online: Columns, fields: seq<Field>, named: seq<Option<string>>, byFieldNum: seq<nat>, k: nat)
    requires |named| == |fields| && Listed(byFieldNum, named, |fields|) && k < |byFieldNum|
    ensures var from := if k == 0 then 0 else byFieldNum[k - 1] + 1;
      from <= byFieldNum[k] < |fields| && named[byFieldNum[k]].None?
      && (forall j :: from <= j < byFieldNum[k] ==> named[j].Some?)
      && NumberPass(online, fields, named, byFieldNum[k]) == NumberPass(online, fields, named, from)
  {
    var from := if k == 0 then 0 else byFieldNum[k - 1] + 1;
    assert forall l :: 0 <= l < |byFieldNum| ==> byFieldNum[l] < from || byFieldNum[l] >= byFieldNum[k];
    NumberPassSkips(online, fields, named, from, byFieldNum[k]);
  }

  // ---------------------------------------------------------------- no column twice

  /** Nothing is claimed twice, and a claim is by name or by number. */
  ghost predicate Sound(online: Columns, fields: seq<Field>, claims: seq<Option<string>>)
    requires |claims| == |fields|
  {
    && (forall i :: 0 <= i < |claims| && claims[i].Some? ==>
          claims[i].value in online
          && (Fold(claims[i].value) == Fold(fields[i].name) || online[claims[i].value].fieldNum == fields[i].number))
    && (forall i, j :: 0 <= i < j < |claims| && claims[i].Some? ==> claims[i] != claims[j])
  }

  lemma {:induction false} NamePassIsSound(online: Columns, fields: seq<Field>)
    ensures Sound(online, fields, NamePass(online, fields))
  {
    if fields != [] {
      var n := |fields| - 1;
      NamePassIsSound(online, fields[..n]);
      var left := Left(online, NamePass(online, fields[..n]));
      if NameClaim(left, fields[n]).Some? {
        assert NameClaim(left, fields[n]).value in Candidates(left, fields[n].name);
      }
    }
  }

  lemma {:induction false} NumberPassIsSound(online: Columns, fields: seq<Field>, named: seq<Option<string>>, n: nat)
    requires |named| == |fields| && n <= |fields| && Sound(online, fields, named)
    ensures Sound(online, fields, NumberPass(online, fields, named, n))
  {
    if n > 0 {
      NumberPassIsSound(online, fields, named, n - 1);
    }
  }

  /** No two fields are copied from one online column. */
  lemma ShadowIsInjective(online: Columns, fields: seq<Field>)
    ensures Sound(online, fields, ShadowClaims(online, fields))
  {
    NamePassIsSound(online, fields);
    NumberPassIsSound(online, fields, NamePass(online, fields), |fields|);
  }
}
