/** The budget of the rebuild the program plans: the columns the two passes choose, and as legacy exactly
    the key columns the drift check finds in a wrong shape. */
module RebuildBudget {
  import opened Wrappers
  import opened ColumnTypes
  import opened TableDef
  import opened ColumnPlanner
  import opened AlterTable
  import opened NameOrder
  import opened SchemaPlan
  import opened ShadowTable
  import opened ShadowMatch
  import opened ShadowCopy
  import opened IndexBudget

  /** The drift check has found this field's column in a shape that is not that of a key. */
  predicate HasLegacyColumn(t: MessageTable, online: Columns, f: Field) {
    IsKeyColumn(t, f) && exists n | n in online :: Examines(online, f, n) && IsLegacyKey(f, online[n])
  }

  /** The key fields to rebuild. */
  function LegacyFields(t: MessageTable, online: Columns): set<string> {
    set f | f in t.fields && HasLegacyColumn(t, online, f) :: f.name
  }

  /** The column a field is copied from is the one the drift check looked at. */
  lemma ClaimIsExamined(t: MessageTable, online: Columns, i: nat)
    requires Sane(t, online) && i < |t.fields|
    ensures var claim := ShadowClaims(online, t.fields)[i];
      claim.Some? ==> claim.value in online && Examines(online, t.fields[i], claim.value)
  {
    hide Fold, ShadowClaims, HasDuplicateNumbers, FoldDistinct, IsNamesake;
    ShadowIsInjective(online, t.fields);
    ShadowIsNamesFirst(t, online, i);
    var f, claim := t.fields[i], ShadowClaims(online, t.fields)[i];
    if claim.Some? && Fold(claim.value) != Fold(f.name) {
      assert forall m :: m in online ==> Fold(m) != Fold(f.name);
      assert Candidates(online, f.name) == {};
      OneOwner(t, online, i, claim.value);
    }
  }

  /** So a key column that is not rebuilt already has the shape of a key. */
  lemma KeptKeyHasShape(t: MessageTable, online: Columns, i: nat)
    requires Sane(t, online) && i < |t.fields| && IsKeyColumn(t, t.fields[i])
    ensures var claim := ShadowClaims(online, t.fields)[i];
      claim.Some? && t.fields[i].name !in LegacyFields(t, online) ==>
        claim.value in online && !IsLegacyKey(t.fields[i], online[claim.value])
  {
    hide Sane, ShadowClaims, Examines, IsLegacyKey, IsKeyColumn;
    ClaimIsExamined(t, online, i);
    assert t.fields[i] in t.fields;
  }

  /** Then every column of the rebuild has a known size in a key. */
  lemma KeySizeKnown(t: MessageTable, online: Columns, i: nat)
    requires Sane(t, online) && ValidOptions(t) && PlainTexts(online) && i < |t.fields|
    ensures var f := t.fields[i];
      var def := NewColumn(t, online, f, ShadowClaims(online, t.fields)[i], LegacyFields(t, online)).def;
      PartBytes(def.body, PrefixOf(t, f.name)).Some?
  {
    hide ShadowClaims, TargetType, PartBytes, HasDuplicateNumbers, FoldDistinct, LegacyFields, ValidOptions, Fits, Extra, IsLegacyKey, IsKeyColumn,
         ShadowColumnType, FoldUnique, PlainTexts;
    var f, claim := t.fields[i], ShadowClaims(online, t.fields)[i];
    assert f in t.fields;
    NewColumnFits(t, online, f, claim, LegacyFields(t, online));
    var def := NewColumn(t, online, f, claim, LegacyFields(t, online)).def;
    if !IsKeyColumn(t, f) {
      OtherPartBytes(t, f, def);
    } else {
      KeptKeyHasShape(t, online, i);
      if claim.Some? && f.name !in LegacyFields(t, online) {
        KeySourceKnown(t, f, Some(online[claim.value]), false);
      } else {
        DeclaredPartBytes(t, f);
        assert def == TargetType(t, f) by { RebuiltAsTarget(t, online, f, claim, LegacyFields(t, online)); }
      }
    }
  }

  lemma RebuiltAsTarget(t: MessageTable, online: Columns, f: Field, claim: Option<string>, legacy: set<string>)
    requires claim.None? || f.name in legacy
    ensures NewColumn(t, online, f, claim, legacy).def == TargetType(t, f)
  {
  }

  lemma KeySourceKnown(t: MessageTable, f: Field, meta: Option<ColumnMeta>, legacy: bool)
    requires ValidDescriptor(t) && ValidOptions(t) && f in t.fields && IsKeyColumn(t, f)
    requires meta.Some? ==> !IsLegacyKey(f, meta.value)
    ensures PartBytes(ShadowColumnType(t, f, meta, legacy).body, PrefixOf(t, f.name)).Some?
  {
    hide ValidDescriptor, ValidOptions, KeyColumnLength, NeedsIndexPrefix;
    LengthIsPositive(t, f);
    DeclaredPartBytes(t, f);
  }

  /** A key over declared columns of known size has a known size. */
  lemma {:induction false} KnownParts(t: MessageTable, columns: Shadow, key: seq<string>)
    requires forall i :: 0 <= i < |key| ==> ColumnBytes(t, columns, key[i]).Some?
    ensures KeyBytes(t, columns, key).Some?
  {
    if key != [] {
      KnownParts(t, columns, key[..|key| - 1]);
    }
  }

  /** The rebuild stays in the budget: for every declared key the size is known and, after the shrinking,
      within the limit or exactly the registered bytes plus the widenings kept on numeric columns; without
      such columns every declared key fits. */
  lemma RebuildFits(t: MessageTable, online: Columns, columns: Shadow, key: seq<string>)
    requires Sane(t, online) && ValidOptions(t) && PlainTexts(online)
    requires Filled(columns, t, online, ShadowClaims(online, t.fields), LegacyFields(t, online), Fields(t))
    requires key in DeclaredKeys(t)
    ensures var after := ShrinkKeys(t, columns, DeclaredKeys(t));
      && (forall c :: c in key ==> Declares(t, c))
      && KeyBytes(t, after, key).Some?
      && (KeyBytes(t, after, key).value <= MAX_INDEX_KEY_BYTES
          || KeyBytes(t, after, key).value == DeclaredKeyBytes(t, key) + Widening(t, columns, key))
      && (Widening(t, columns, key) == 0 ==> KeyBytes(t, after, key).value <= MAX_INDEX_KEY_BYTES)
  {
    hide ShadowClaims, LegacyFields, NewColumn, PlainTexts, HasDuplicateNumbers, FoldDistinct, KeyBytes, Widening, ShrinkKeys, FitsAll, PartBytes;
    var claims, legacy := ShadowClaims(online, t.fields), LegacyFields(t, online);
    RebuiltColumnsFit(t, online, claims, legacy, columns);
    BudgetHolds(t, columns, key);
    forall k | 0 <= k < |key| ensures ColumnBytes(t, columns, key[k]).Some? {
      var f := FieldNamed(t, key[k]);
      var i :| 0 <= i < |t.fields| && t.fields[i] == f;
      assert i in Fields(t);
      KeySizeKnown(t, online, i);
    }
    KnownParts(t, columns, key);
  }
}
