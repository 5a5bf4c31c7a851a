/** Filling the shadow table: what each column becomes, and that every online column is copied exactly
    once or listed as one the shadow table does not have. */
module ShadowCopy {
  import opened Wrappers
  import opened ColumnTypes
  import opened TableDef
  import opened ColumnPlanner
  import opened AlterTable
  import opened ShadowTable
  import opened ShadowMatch

  // ---------------------------------------------------------------- column definitions

  /** The collation a definition without one gets from the table. */
  function Effective(collation: string): string {
    if collation == "" then TABLE_COLLATION else Fold(collation)
  }

  /** A shadow column holds what its field writes, in the declared type or the online one; unless it is
      rebuilt as a key, it holds all its online column held and compares the same way. */
  lemma ShadowTypeFits(t: MessageTable, f: Field, meta: Option<ColumnMeta>, legacy: bool)
    ensures var target, def := TargetType(t, f), ShadowColumnType(t, f, meta, legacy);
      && IsTypeMatch(def.body, target.body)
      && def.notNull == target.notNull && def.default_ == target.default_ && def.autoIncrement == target.autoIncrement
      && (def.body == target.body || (meta.Some? && def.body == meta.value.body))
      && (legacy || meta.None? ==> def == target)
      && (!legacy && meta.Some? && Comparable(meta.value.body, target.body) ==> IsTypeMatch(def.body, meta.value.body))
      && (!legacy && meta.Some? && IsTypeMatch(meta.value.body, target.body) && meta.value.collation != "" && target.collation == "" ==>
            Effective(def.collation) == Effective(meta.value.collation))
  {
    hide TargetType;
    var target := TargetType(t, f);
    MatchIsTotalPreorder(target.body, target.body, target.body);
    if meta.Some? {
      MatchIsTotalPreorder(meta.value.body, target.body, meta.value.body);
      if Comparable(meta.value.body, target.body) {
        AlignedIsJoin(meta.value.body, target.body, meta.value.body);
      }
    }
  }

  // ---------------------------------------------------------------- the copy statement

  datatype Source = Source(column: string, coalesced: bool)

  /** INSERT INTO shadow (targets) SELECT sources; gaps are nullable columns copied as they are into
      NOT NULL ones, orphans the online columns left out. */
  datatype Copy = Copy(targets: seq<string>, sources: seq<Source>, gaps: seq<string>, orphans: set<string>)

  function CopiedFields(claims: seq<Option<string>>): (these: seq<nat>)
    ensures forall k :: 0 <= k < |these| ==> these[k] < |claims| && claims[these[k]].Some?
  {
    if claims == [] then []
    else
      var before := CopiedFields(claims[..|claims| - 1]);
      if claims[|claims| - 1].Some? then before + [|claims| - 1] else before
  }

  lemma {:induction false} CopiedAre(claims: seq<Option<string>>)
    ensures var these := CopiedFields(claims);
      && (forall k, l :: 0 <= k < l < |these| ==> these[k] < these[l])
      && (forall i :: 0 <= i < |claims| && claims[i].Some? ==> i in these)
  {
    if claims != [] {
      CopiedAre(claims[..|claims| - 1]);
      forall i | 0 <= i < |claims| && claims[i].Some? ensures i in CopiedFields(claims) {
        if i < |claims| - 1 {
          assert claims[..|claims| - 1][i] == claims[i];
        }
      }
    }
  }

  ghost predicate ClaimsOnline(online: Columns, claims: seq<Option<string>>) {
    forall i :: 0 <= i < |claims| && claims[i].Some? ==> claims[i].value in online
  }

  function SourceOf(c: string, meta: ColumnMeta, legacy: bool): Source {
    Source(c, legacy && meta.nullable)
  }

  predicate IsGap(meta: ColumnMeta, column: ShadowColumn) {
    !column.legacy && meta.nullable && column.def.notNull
  }

  /** Column by column in field order. */
  ghost predicate CopiesFirst(t: MessageTable, online: Columns, claims: seq<Option<string>>, columns: map<string, ShadowColumn>,
                              targets: seq<string>, sources: seq<Source>, gaps: seq<string>)
    requires |claims| <= |t.fields| && ClaimsOnline(online, claims)
    requires forall i :: 0 <= i < |t.fields| ==> t.fields[i].name in columns
  {
    var these := CopiedFields(claims);
    && |targets| == |sources| == |these|
    && (forall k :: 0 <= k < |these| ==>
          var name, c := t.fields[these[k]].name, claims[these[k]].value;
          && targets[k] == name
          && sources[k] == SourceOf(c, online[c], columns[name].legacy)
          && (c in gaps <==> IsGap(online[c], columns[name])))
    && (forall c :: c in gaps ==> Some(c) in claims)
  }

  lemma CopiesGrow(t: MessageTable, online: Columns, before: seq<Option<string>>, claim: Option<string>, columns: map<string, ShadowColumn>,
                   targets: seq<string>, sources: seq<Source>, gaps: seq<string>)
    requires |before| < |t.fields| && ClaimsOnline(online, before) && (claim.Some? ==> claim.value in online && claim !in before)
    requires forall i :: 0 <= i < |t.fields| ==> t.fields[i].name in columns
    requires CopiesFirst(t, online, before, columns, targets, sources, gaps)
    ensures ClaimsOnline(online, before + [claim])
    ensures claim.None? ==> CopiesFirst(t, online, before + [claim], columns, targets, sources, gaps)
    ensures claim.Some? ==>
      var name := t.fields[|before|].name;
      CopiesFirst(t, online, before + [claim], columns, targets + [name],
                  sources + [SourceOf(claim.value, online[claim.value], columns[name].legacy)],
                  if IsGap(online[claim.value], columns[name]) then gaps + [claim.value] else gaps)
  {
    hide IsGap;
    var now := before + [claim];
    assert now[..|before|] == before;
    var these := CopiedFields(before);
    assert forall k :: 0 <= k < |these| ==> now[these[k]] == before[these[k]] && before[these[k]] in before;
  }

  lemma FilledMeans(columns: map<string, ShadowColumn>, t: MessageTable, online: Columns, claims: seq<Option<string>>, legacy: set<string>)
    requires |claims| == |t.fields| && Filled(columns, t, online, claims, legacy, Fields(t))
    ensures forall i :: 0 <= i < |t.fields| ==>
      t.fields[i].name in columns && columns[t.fields[i].name] == NewColumn(t, online, t.fields[i], claims[i], legacy)
  {
    hide NewColumn;
    assert forall i :: 0 <= i < |t.fields| ==> i in Fields(t);
  }

  lemma NotYetCopied(online: Columns, fields: seq<Field>, claims: seq<Option<string>>, i: nat)
    requires |claims| == |fields| && Sound(online, fields, claims) && i < |claims|
    ensures ClaimsOnline(online, claims[..i])
    ensures claims[i].Some? ==> claims[i].value in online && claims[i] !in claims[..i]
  {
    hide Fold;
  }

  method CopyColumns(t: MessageTable, online: Columns, columns: map<string, ShadowColumn>, ghost claims: seq<Option<string>>,
                     ghost legacy: set<string>) returns (copy: Copy)
    requires |claims| == |t.fields| && Sound(online, t.fields, claims) && Filled(columns, t, online, claims, legacy, Fields(t))
    ensures ClaimsOnline(online, claims) && forall i :: 0 <= i < |t.fields| ==> t.fields[i].name in columns
    ensures CopiesFirst(t, online, claims, columns, copy.targets, copy.sources, copy.gaps)
    ensures copy.orphans == set n | n in online && Some(n) !in claims
  {
    hide IsGap, NewColumn, Sound, Filled, CopiesFirst;
    FilledMeans(columns, t, online, claims, legacy);
    var targets: seq<string>, sources: seq<Source>, gaps: seq<string> := [], [], [];
    var matched: set<string> := {};
    assert CopiesFirst(t, online, [], columns, targets, sources, gaps) by { NothingCopied(t, online, columns); }
    for i := 0 to |t.fields|
      invariant ClaimsOnline(online, claims[..i])
      invariant CopiesFirst(t, online, claims[..i], columns, targets, sources, gaps)
      invariant matched == set n | n in online && Some(n) in claims[..i]
    {
      var name := t.fields[i].name;
      var column := columns[name];
      SourceIsClaim(t, online, t.fields[i], claims[i], legacy);
      assert claims[..i + 1] == claims[..i] + [claims[i]];
      NotYetCopied(online, t.fields, claims, i);
      CopiesGrow(t, online, claims[..i], claims[i], columns, targets, sources, gaps);
      if column.source.Some? {
        var c := column.source.value;
        matched := matched + {c};
        if IsGap(online[c], column) {
          gaps := gaps + [c];
        }
        targets := targets + [name];
        sources := sources + [SourceOf(c, online[c], column.legacy)];
      }
    }
    assert claims[..|t.fields|] == claims;
    copy := Copy(targets, sources, gaps, online.Keys - matched);
  }

  lemma NothingCopied(t: MessageTable, online: Columns, columns: map<string, ShadowColumn>)
    requires forall i :: 0 <= i < |t.fields| ==> t.fields[i].name in columns
    ensures CopiesFirst(t, online, [], columns, [], [], [])
  {
  }

  lemma SourceIsClaim(t: MessageTable, online: Columns, f: Field, claim: Option<string>, legacy: set<string>)
    ensures NewColumn(t, online, f, claim, legacy).source == claim
  {
  }

  /** How often a column is read. */
  function Reads(sources: seq<Source>, n: string): nat {
    if sources == [] then 0
    else Reads(sources[..|sources| - 1], n) + if sources[|sources| - 1].column == n then 1 else 0
  }

  lemma {:induction false} ReadOnce(sources: seq<Source>, n: string, k: nat)
    requires k < |sources| && forall l :: 0 <= l < |sources| ==> (sources[l].column == n <==> l == k)
    ensures Reads(sources, n) == 1
  {
    var last := |sources| - 1;
    if k == last {
      NeverRead(sources[..last], n);
    } else {
      ReadOnce(sources[..last], n, k);
    }
  }

  lemma {:induction false} NeverRead(sources: seq<Source>, n: string)
    requires forall l :: 0 <= l < |sources| ==> sources[l].column != n
    ensures Reads(sources, n) == 0
  {
    if sources != [] {
      NeverRead(sources[..|sources| - 1], n);
    }
  }

  /** Every online column is read exactly once or is an orphan; no shadow column is written twice; and
      NULL reaches a NOT NULL column only through a listed gap. */
  lemma CopyPartitions(t: MessageTable, online: Columns, columns: map<string, ShadowColumn>, copy: Copy)
    requires ValidDescriptor(t)
    requires forall i :: 0 <= i < |t.fields| ==> t.fields[i].name in columns
    requires var claims := ShadowClaims(online, t.fields);
      && ClaimsOnline(online, claims)
      && CopiesFirst(t, online, claims, columns, copy.targets, copy.sources, copy.gaps)
      && copy.orphans == set n | n in online && Some(n) !in claims
    ensures forall n :: n in online ==> Reads(copy.sources, n) == if n in copy.orphans then 0 else 1
    ensures |copy.targets| == |copy.sources| && NoRepeats(copy.targets)
    ensures forall k :: 0 <= k < |copy.sources| ==>
      && copy.sources[k].column in online && copy.targets[k] in columns
      && (online[copy.sources[k].column].nullable && columns[copy.targets[k]].def.notNull ==>
            copy.sources[k].coalesced || copy.sources[k].column in copy.gaps)
  {
    hide ShadowClaims, Fold;
    var claims := ShadowClaims(online, t.fields);
    var these := CopiedFields(claims);
    CopiedAre(claims);
    ShadowIsInjective(online, t.fields);
    forall n | n in online ensures Reads(copy.sources, n) == if n in copy.orphans then 0 else 1 {
      if n in copy.orphans {
        NeverRead(copy.sources, n);
      } else {
        var i :| 0 <= i < |claims| && claims[i] == Some(n);
        var k :| 0 <= k < |these| && these[k] == i;
        ReadOnce(copy.sources, n, k);
      }
    }
  }

  // ---------------------------------------------------------------- the cells a row receives

  /** A stored cell: NULL, or some content. */
  datatype Cell = Null | Holds(content: string)

  /** INSERT ... SELECT on one row: each target gets its source's cell, and COALESCE(source, '') the empty
      string for NULL. */
  function CopiedRow(targets: seq<string>, sources: seq<Source>, row: map<string, Cell>): map<string, Cell>
    requires |targets| == |sources| && forall k :: 0 <= k < |sources| ==> sources[k].column in row
  {
    if targets == [] then map[]
    else
      var n := |targets| - 1;
      var cell := row[sources[n].column];
      CopiedRow(targets[..n], sources[..n], row)[targets[n] := if sources[n].coalesced && cell == Null then Holds("") else cell]
  }

  /** A row of the online table: one cell a column, NULL in nullable columns only. */
  ghost predicate RowOf(online: Columns, row: map<string, Cell>) {
    row.Keys == online.Keys && forall n :: n in online && row[n] == Null ==> online[n].nullable
  }

  lemma {:induction false} CopiedAt(targets: seq<string>, sources: seq<Source>, row: map<string, Cell>, k: nat)
    requires |targets| == |sources| && forall i :: 0 <= i < |sources| ==> sources[i].column in row
    requires NoRepeats(targets) && k < |targets|
    ensures targets[k] in CopiedRow(targets, sources, row)
    ensures CopiedRow(targets, sources, row)[targets[k]] ==
      var cell := row[sources[k].column];
      if sources[k].coalesced && cell == Null then Holds("") else cell
  {
    var n := |targets| - 1;
    if k < n {
      CopiedAt(targets[..n], sources[..n], row, k);
    }
  }

  lemma {:induction false} CopiedOnly(targets: seq<string>, sources: seq<Source>, row: map<string, Cell>, name: string)
    requires |targets| == |sources| && forall i :: 0 <= i < |sources| ==> sources[i].column in row
    requires name !in targets
    ensures name !in CopiedRow(targets, sources, row)
  {
    if targets != [] {
      var n := |targets| - 1;
      CopiedOnly(targets[..n], sources[..n], row, name);
    }
  }

  /** Every row arrives as it was: a field that is not rebuilt as a key gets exactly the cell of its
      column, NULL included; one that is gets '' for NULL and the cell otherwise; a field without a column
      is left to its default. Gaps are exactly the nullable columns that go uncoalesced into NOT NULL. */
  lemma RowsArriveUnchanged(t: MessageTable, online: Columns, columns: map<string, ShadowColumn>, claims: seq<Option<string>>,
                            legacy: set<string>, copy: Copy, row: map<string, Cell>, i: nat)
    requires ValidDescriptor(t) && |claims| == |t.fields| && Filled(columns, t, online, claims, legacy, Fields(t))
    requires ClaimsOnline(online, claims) && forall j :: 0 <= j < |t.fields| ==> t.fields[j].name in columns
    requires CopiesFirst(t, online, claims, columns, copy.targets, copy.sources, copy.gaps)
    requires RowOf(online, row) && i < |t.fields|
    ensures |copy.targets| == |copy.sources| && forall k :: 0 <= k < |copy.sources| ==> copy.sources[k].column in row
    ensures var name, shadow := t.fields[i].name, CopiedRow(copy.targets, copy.sources, row);
      match claims[i]
      case None => name !in shadow
      case Some(c) =>
        && name in shadow
        && shadow[name] == (if name in legacy && row[c] == Null then Holds("") else row[c])
        && (c in copy.gaps <==> name !in legacy && online[c].nullable && columns[name].def.notNull)
  {
    hide CopiedRow, ShadowColumnType;
    FilledMeans(columns, t, online, claims, legacy);
    CopiedAre(claims);
    var these, name := CopiedFields(claims), t.fields[i].name;
    forall a, b | 0 <= a < b < |these| ensures copy.targets[a] != copy.targets[b] {
      assert these[a] < these[b];
    }
    if claims[i].Some? {
      var k :| 0 <= k < |these| && these[k] == i;
      CopiedAt(copy.targets, copy.sources, row, k);
    } else {
      forall k | 0 <= k < |these| ensures copy.targets[k] != name {
        assert these[k] < i || i < these[k];
      }
      CopiedOnly(copy.targets, copy.sources, row, name);
    }
  }
}
