/** Keeping wide online columns in a shadow table may push a key over MySQL's limit: the loop that takes
    key columns back to their declared width until every key fits. */
module IndexBudget {
  import opened Wrappers
  import opened ColumnTypes
  import opened TableDef
  import opened ColumnPlanner
  import opened ShadowTable
  import opened ShadowCopy

  // ---------------------------------------------------------------- bytes of a key

  /** Bytes a column of this type takes in a key; None when its length is not known. */
  function PartBytes(body: TypeBody, prefix: Option<nat>): Option<nat> {
    var length := if prefix.Some? then prefix.value else body.length;
    match Normal(body.base)
    case Char | VarChar | TinyText | Text | MediumText | LongText => if length == 0 then None else Some(4 * length)
    case Binary | VarBinary | TinyBlob | Blob | MediumBlob | LongBlob => if length == 0 then None else Some(length)
    case TinyInt => Some(1)
    case SmallInt => Some(2)
    case MediumInt => Some(3)
    case Int | Float => Some(4)
    case BigInt | Double | DateTime => Some(8)
    case _ => None
  }

  type Shadow = map<string, ShadowColumn>

  function PrefixOf(t: MessageTable, name: string): Option<nat> {
    if NeedsIndexPrefix(t, name) then Some(TEXT_INDEX_PREFIX) else None
  }

  function ColumnBytes(t: MessageTable, columns: Shadow, name: string): Option<nat> {
    if name in columns then PartBytes(columns[name].def.body, PrefixOf(t, name)) else None
  }

  function KeyBytes(t: MessageTable, columns: Shadow, key: seq<string>): Option<nat> {
    if key == [] then Some(0)
    else
      match KeyBytes(t, columns, key[..|key| - 1])
      case None => None
      case Some(before) =>
        match ColumnBytes(t, columns, key[|key| - 1])
        case None => None
        case Some(part) => Some(before + part)
  }

  predicate Over(t: MessageTable, columns: Shadow, key: seq<string>) {
    var b := KeyBytes(t, columns, key);
    b.Some? && b.value > MAX_INDEX_KEY_BYTES
  }

  // ---------------------------------------------------------------- one key, then all keys

  predicate IsKeyField(t: MessageTable, name: string) {
    Declares(t, name) && IsKeyColumn(t, FieldNamed(t, name))
  }

  function Target(t: MessageTable, name: string): ColumnDef
    requires Declares(t, name)
  {
    TargetType(t, FieldNamed(t, name))
  }

  /** A key column kept wider than declared. */
  predicate Shrinkable(t: MessageTable, columns: Shadow, name: string) {
    IsKeyField(t, name) && name in columns && columns[name].def != Target(t, name)
  }

  function Shrink(t: MessageTable, columns: Shadow, name: string): Shadow
    requires Shrinkable(t, columns, name)
  {
    columns[name := columns[name].(def := Target(t, name))]
  }

  function ShrinkKey(t: MessageTable, columns: Shadow, key: seq<string>, n: nat): Shadow
    requires n <= |key|
  {
    if n == 0 then columns
    else
      var before := ShrinkKey(t, columns, key, n - 1);
      if Over(t, before, key) && Shrinkable(t, before, key[n - 1]) then Shrink(t, before, key[n - 1]) else before
  }

  function ShrinkKeys(t: MessageTable, columns: Shadow, keys: seq<seq<string>>): Shadow {
    if keys == [] then columns
    else
      var key := keys[|keys| - 1];
      ShrinkKey(t, ShrinkKeys(t, columns, keys[..|keys| - 1]), key, |key|)
  }

  /** Names of the fields whose definition changed, in field order. */
  function Changed(t: MessageTable, before: Shadow, after: Shadow, n: nat): seq<string>
    requires n <= |t.fields|
  {
    if n == 0 then []
    else
      var name := t.fields[n - 1].name;
      var rest := Changed(t, before, after, n - 1);
      if name in before && name in after && before[name].def != after[name].def then rest + [name] else rest
  }

  // ---------------------------------------------------------------- how the table may change

  /** b is a with some key columns, of known size, back at their declared width. */
  ghost predicate Narrowed(t: MessageTable, a: Shadow, b: Shadow) {
    && a.Keys == b.Keys
    && forall name :: name in a ==>
         || b[name] == a[name]
         || (IsKeyField(t, name) && ColumnBytes(t, a, name).Some? && b[name] == a[name].(def := Target(t, name)))
  }

  lemma {:induction false} KnownKeyKnowsParts(t: MessageTable, columns: Shadow, key: seq<string>, i: nat)
    requires i < |key| && KeyBytes(t, columns, key).Some?
    ensures ColumnBytes(t, columns, key[i]).Some?
  {
    if i < |key| - 1 {
      KnownKeyKnowsParts(t, columns, key[..|key| - 1], i);
    }
  }

  lemma NarrowedTwice(t: MessageTable, a: Shadow, b: Shadow, c: Shadow)
    requires Narrowed(t, a, b) && Narrowed(t, b, c)
    ensures Narrowed(t, a, c)
  {
    hide IsKeyColumn, TargetType, PartBytes;
    forall name | name in a
      ensures c[name] == a[name] || (IsKeyField(t, name) && ColumnBytes(t, a, name).Some? && c[name] == a[name].(def := Target(t, name)))
    {
      assert name in b;
    }
  }

  lemma {:induction false} ShrinkKeyNarrows(t: MessageTable, columns: Shadow, key: seq<string>, n: nat)
    requires n <= |key|
    ensures Narrowed(t, columns, ShrinkKey(t, columns, key, n))
  {
    hide IsKeyField, Target, PartBytes;
    if n > 0 {
      ShrinkKeyNarrows(t, columns, key, n - 1);
      var before := ShrinkKey(t, columns, key, n - 1);
      if Over(t, before, key) && Shrinkable(t, before, key[n - 1]) {
        KnownKeyKnowsParts(t, before, key, n - 1);
        NarrowedTwice(t, columns, before, Shrink(t, before, key[n - 1]));
      }
    }
  }

  /** Only key columns change, and only to their declared definition. */
  lemma {:induction false} ShrinkKeysNarrows(t: MessageTable, columns: Shadow, keys: seq<seq<string>>)
    ensures Narrowed(t, columns, ShrinkKeys(t, columns, keys))
  {
    if keys != [] {
      var before := ShrinkKeys(t, columns, keys[..|keys| - 1]);
      ShrinkKeysNarrows(t, columns, keys[..|keys| - 1]);
      var key := keys[|keys| - 1];
      ShrinkKeyNarrows(t, before, key, |key|);
      NarrowedTwice(t, columns, before, ShrinkKeys(t, columns, keys));
    }
  }

  // ---------------------------------------------------------------- the loop

  lemma {:induction false} StopsForGood(t: MessageTable, columns: Shadow, key: seq<string>, n: nat, m: nat)
    requires n <= m <= |key| && !Over(t, ShrinkKey(t, columns, key, n), key)
    ensures ShrinkKey(t, columns, key, m) == ShrinkKey(t, columns, key, n)
  {
    if n < m {
      StopsForGood(t, columns, key, n, m - 1);
    }
  }

  /** The shrinking of one key stops as soon as it may: before its last step the key was still over. */
  lemma {:induction false} LastStepWasNeeded(t: MessageTable, columns: Shadow, key: seq<string>, n: nat)
    requires n <= |key| && ShrinkKey(t, columns, key, n) != columns
    ensures exists i :: LastStep(t, columns, key, n, i)
  {
    var now, before := ShrinkKey(t, columns, key, n), ShrinkKey(t, columns, key, n - 1);
    if now != before {
      assert LastStep(t, columns, key, n, n - 1);
    } else {
      LastStepWasNeeded(t, columns, key, n - 1);
      var i :| LastStep(t, columns, key, n - 1, i);
      assert LastStep(t, columns, key, n, i);
    }
  }

  /** Step i is the last of the first n that changed anything, and the key was over the limit before it. */
  ghost predicate LastStep(t: MessageTable, columns: Shadow, key: seq<string>, n: nat, i: nat)
    requires n <= |key|
  {
    && i < n
    && Over(t, ShrinkKey(t, columns, key, i), key) && Shrinkable(t, ShrinkKey(t, columns, key, i), key[i])
    && ShrinkKey(t, columns, key, n) == Shrink(t, ShrinkKey(t, columns, key, i), key[i])
  }

  /** The columns of one key are taken back in order: if one was, none before it is left to take. */
  lemma {:induction false} ShrinksInOrder(t: MessageTable, columns: Shadow, key: seq<string>, n: nat, i: nat, j: nat)
    requires i < j < n <= |key| && key[j] in columns && key[j] in ShrinkKey(t, columns, key, n)
    requires (forall k :: 0 <= k < n && k != j ==> key[k] != key[j])
    requires ShrinkKey(t, columns, key, n)[key[j]] != columns[key[j]]
    ensures !Shrinkable(t, ShrinkKey(t, columns, key, n), key[i])
  {
    hide IsKeyField, Target, KeyBytes;
    ShrinkKeyNarrows(t, columns, key, n - 1);
    if j < n - 1 {
      ShrinksInOrder(t, columns, key, n - 1, i, j);
    } else {
      UntouchedYet(t, columns, key, j, j);
      OverMeansTaken(t, columns, key, j, i);
    }
  }

  lemma {:induction false} UntouchedYet(t: MessageTable, columns: Shadow, key: seq<string>, n: nat, j: nat)
    requires n <= j < |key| && key[j] in columns && forall k :: 0 <= k < n ==> key[k] != key[j]
    ensures key[j] in ShrinkKey(t, columns, key, n) && ShrinkKey(t, columns, key, n)[key[j]] == columns[key[j]]
  {
    hide IsKeyField, Target, KeyBytes;
    if n > 0 {
      UntouchedYet(t, columns, key, n - 1, j);
    }
  }

  /** While the key is over, every column passed has been taken back. */
  lemma {:induction false} OverMeansTaken(t: MessageTable, columns: Shadow, key: seq<string>, n: nat, i: nat)
    requires i < n <= |key| && Over(t, ShrinkKey(t, columns, key, n), key)
    ensures !Shrinkable(t, ShrinkKey(t, columns, key, n), key[i])
  {
    hide IsKeyField, Target, KeyBytes;
    var before := ShrinkKey(t, columns, key, n - 1);
    if Over(t, before, key) && i < n - 1 {
      OverMeansTaken(t, columns, key, n - 1, i);
    }
  }

  class ShadowPlan {
    var columns: Shadow

    constructor (columns: Shadow)
      ensures this.columns == columns
    {
      this.columns := columns;
    }

    /** One key: take its columns back in order until it fits or its size is not known. */
    method ShrinkOne(t: MessageTable, key: seq<string>, before: set<string>) returns (shrunk: set<string>)
      modifies this
      ensures columns == ShrinkKey(t, old(columns), key, |key|)
      ensures shrunk == before + Differing(old(columns), columns)
    {
      hide KeyBytes, Shrinkable, Differing, Narrowed;
      DifferingFromItself(columns);
      shrunk := before;
      var i := 0;
      while i < |key|
        invariant 0 <= i <= |key| && columns == ShrinkKey(t, old(columns), key, i)
        invariant shrunk == before + Differing(old(columns), columns)
      {
        if !Over(t, columns, key) {
          StopsForGood(t, old(columns), key, i, |key|);
          return;
        }
        if Shrinkable(t, columns, key[i]) {
          ShrinkKeyNarrows(t, old(columns), key, i);
          DifferingGrows(t, old(columns), columns, key[i]);
          columns := Shrink(t, columns, key[i]);
          shrunk := shrunk + {key[i]};
        }
        i := i + 1;
      }
    }

    /** All declared keys in turn; returns the narrowed columns. */
    method ShrinkKeysToIndexBudget(t: MessageTable) returns (narrowed: seq<string>)
      modifies this
      ensures columns == ShrinkKeys(t, old(columns), DeclaredKeys(t))
      ensures narrowed == Changed(t, old(columns), columns, |t.fields|)
    {
      hide ShrinkKey, Narrowed, DeclaredKeys, Differing;
      var keys := DeclaredKeys(t);
      var shrunk: set<string> := {};
      DifferingFromItself(columns);
      for i := 0 to |keys|
        invariant columns == ShrinkKeys(t, old(columns), keys[..i])
        invariant shrunk == Differing(old(columns), columns)
      {
        assert keys[..i + 1][..i] == keys[..i];
        ghost var now := columns;
        ShrinkKeysNarrows(t, old(columns), keys[..i]);
        shrunk := ShrinkOne(t, keys[i], shrunk);
        ShrinkKeyNarrows(t, now, keys[i], |keys[i]|);
        DifferencesAddUp(t, old(columns), now, columns);
      }
      assert keys[..|keys|] == keys;
      ShrinkKeysNarrows(t, old(columns), keys);
      narrowed := [];
      for i := 0 to |t.fields|
        invariant columns == ShrinkKeys(t, old(columns), keys) && shrunk == Differing(old(columns), columns)
        invariant narrowed == Changed(t, old(columns), columns, i)
      {
        DifferingMeans(old(columns), columns, t.fields[i].name);
        if t.fields[i].name in shrunk {
          narrowed := narrowed + [t.fields[i].name];
        }
      }
    }
  }

  ghost function Differing(a: Shadow, b: Shadow): set<string> {
    set name | name in a && name in b && a[name].def != b[name].def
  }

  lemma DifferingMeans(a: Shadow, b: Shadow, name: string)
    ensures name in Differing(a, b) <==> name in a && name in b && a[name].def != b[name].def
  {
  }

  lemma DifferingFromItself(a: Shadow)
    ensures Differing(a, a) == {}
  {
  }

  lemma DifferingGrows(t: MessageTable, a: Shadow, b: Shadow, name: string)
    requires Narrowed(t, a, b) && Shrinkable(t, b, name)
    ensures Differing(a, Shrink(t, b, name)) == Differing(a, b) + {name}
  {
    hide IsKeyField, Target, ColumnBytes;
  }

  lemma DifferencesAddUp(t: MessageTable, a: Shadow, b: Shadow, c: Shadow)
    requires Narrowed(t, a, b) && Narrowed(t, b, c)
    ensures Differing(a, c) == Differing(a, b) + Differing(b, c)
  {
    hide IsKeyField, Target, ColumnBytes;
  }

  // ---------------------------------------------------------------- sizes

  predicate IsNumeric(b: Base) {
    FamilyOf(Normal(b)) == Integers || FamilyOf(Normal(b)) == Floats
  }

  /** On declared types the size in the shadow table is the size registration computed. */
  lemma DeclaredPartBytes(t: MessageTable, f: Field)
    requires ValidDescriptor(t) && ValidOptions(t) && f in t.fields
    ensures PartBytes(TargetType(t, f).body, PrefixOf(t, f.name)) == Some(IndexKeyPartBytes(t, f))
  {
    hide ValidDescriptor, ValidOptions, NeedsIndexPrefix, IsKeyColumn, KeyColumnLength;
    PrefixIsByType(t, f);
    if IsKeyColumn(t, f) {
      LengthIsPositive(t, f);
      KeyColumnIsScalar(t, f);
    }
  }

  lemma KeyColumnIsScalar(t: MessageTable, f: Field)
    requires IsKeyColumn(t, f)
    ensures !f.collection && (f.kind.StringKind? || f.kind.BytesKind?)
  {
  }

  lemma PrefixIsByType(t: MessageTable, f: Field)
    requires ValidDescriptor(t) && f in t.fields
    ensures NeedsIndexPrefix(t, f.name) <==> IsTextOrBlob(TargetType(t, f).body.base)
  {
    hide TargetType, IsTextOrBlob;
    SameNameSameField(t, f);
  }

  lemma LengthIsPositive(t: MessageTable, f: Field)
    requires ValidDescriptor(t) && ValidOptions(t) && f in t.fields
    ensures KeyColumnLength(t, f.name) >= 1
  {
  }

  /** A shadow column as the rebuild defines it: the target, or a wider type of the same kind; online
      TEXT and BLOB types carry no length. */
  predicate Fits(def: ColumnDef, target: ColumnDef) {
    || def == target
    || (IsTypeMatch(def.body, target.body) && (IsTextOrBlob(def.body.base) ==> def.body.length == 0))
  }

  ghost predicate FitsAll(t: MessageTable, columns: Shadow) {
    forall f :: f in t.fields ==> f.name in columns && Fits(columns[f.name].def, TargetType(t, f))
  }

  /** What the column takes beyond its declared size. */
  function Extra(t: MessageTable, f: Field, def: ColumnDef): int {
    var part := PartBytes(def.body, PrefixOf(t, f.name));
    if IsNumeric(TargetType(t, f).body.base) && part.Some? then part.value - IndexKeyPartBytes(t, f) else 0
  }

  /** Outside key columns only numeric columns can take more than declared, and none takes less. */
  lemma OtherPartBytes(t: MessageTable, f: Field, def: ColumnDef)
    requires ValidDescriptor(t) && ValidOptions(t) && f in t.fields && !IsKeyColumn(t, f) && Fits(def, TargetType(t, f))
    ensures Extra(t, f, def) >= 0
    ensures PartBytes(def.body, PrefixOf(t, f.name)) == Some(IndexKeyPartBytes(t, f) + Extra(t, f, def))
  {
    hide ValidDescriptor, ValidOptions, NeedsIndexPrefix, IsKeyColumn;
    DeclaredPartBytes(t, f);
    PrefixIsByType(t, f);
  }

  /** Taking a key column of known size back to its declared width never makes it larger. */
  lemma KeyPartShrinks(t: MessageTable, f: Field, def: ColumnDef)
    requires ValidDescriptor(t) && ValidOptions(t) && f in t.fields && IsKeyColumn(t, f) && Fits(def, TargetType(t, f))
    requires PartBytes(def.body, PrefixOf(t, f.name)).Some?
    ensures IndexKeyPartBytes(t, f) <= PartBytes(def.body, PrefixOf(t, f.name)).value
    ensures Extra(t, f, TargetType(t, f)) == 0
  {
    hide ValidDescriptor, ValidOptions;
    DeclaredPartBytes(t, f);
    PrefixIsByType(t, f);
  }

  // ---------------------------------------------------------------- the bound

  lemma NarrowedColumn(t: MessageTable, a: Shadow, b: Shadow, f: Field)
    requires ValidDescriptor(t) && ValidOptions(t) && f in t.fields && FitsAll(t, a) && Narrowed(t, a, b)
    ensures f.name in b && Fits(b[f.name].def, TargetType(t, f))
    ensures ColumnBytes(t, a, f.name).Some? <==> ColumnBytes(t, b, f.name).Some?
    ensures ColumnBytes(t, a, f.name).Some? ==> ColumnBytes(t, b, f.name).value <= ColumnBytes(t, a, f.name).value
  {
    hide ValidDescriptor, ValidOptions, TargetType, IsKeyColumn, PartBytes, IndexKeyPartBytes, NeedsIndexPrefix, IsTypeMatch, Extra;
    assert f.name in a;
    if b[f.name] != a[f.name] {
      SameNameSameField(t, f);
      assert FieldNamed(t, f.name) == f;
      DeclaredPartBytes(t, f);
      KeyPartShrinks(t, f, a[f.name].def);
    }
  }

  lemma FitsAllKept(t: MessageTable, a: Shadow, b: Shadow)
    requires ValidDescriptor(t) && ValidOptions(t) && FitsAll(t, a) && Narrowed(t, a, b)
    ensures FitsAll(t, b)
  {
    hide ValidDescriptor, ValidOptions, TargetType, Fits, Narrowed, ColumnBytes;
    forall f | f in t.fields ensures f.name in b && Fits(b[f.name].def, TargetType(t, f)) {
      NarrowedColumn(t, a, b, f);
    }
  }

  /** Narrowing makes no key larger, and none unknown. */
  lemma {:induction false} KeyBytesShrink(t: MessageTable, a: Shadow, b: Shadow, key: seq<string>)
    requires ValidDescriptor(t) && ValidOptions(t) && FitsAll(t, a) && Narrowed(t, a, b)
    requires forall c :: c in key ==> Declares(t, c)
    ensures KeyBytes(t, a, key).Some? <==> KeyBytes(t, b, key).Some?
    ensures KeyBytes(t, a, key).Some? ==> KeyBytes(t, b, key).value <= KeyBytes(t, a, key).value
  {
    hide ValidDescriptor, ValidOptions, FitsAll, Narrowed, ColumnBytes;
    if key != [] {
      KeyBytesShrink(t, a, b, key[..|key| - 1]);
      NarrowedColumn(t, a, b, FieldNamed(t, key[|key| - 1]));
    }
  }

  /** Every key column among the first n is at its declared width. */
  ghost predicate Exhausted(t: MessageTable, columns: Shadow, key: seq<string>, n: nat)
    requires n <= |key|
  {
    forall i :: 0 <= i < n && IsKeyField(t, key[i]) && key[i] in columns ==> columns[key[i]].def == Target(t, key[i])
  }

  /** After n steps the key fits (or is unknown), or nothing is left to shrink among the first n. */
  lemma {:induction false} FitsOrExhausted(t: MessageTable, columns: Shadow, key: seq<string>, n: nat)
    requires ValidDescriptor(t) && ValidOptions(t) && FitsAll(t, columns) && n <= |key|
    requires forall c :: c in key ==> Declares(t, c)
    ensures var after := ShrinkKey(t, columns, key, n);
      !Over(t, after, key) || Exhausted(t, after, key, n)
  {
    hide ValidDescriptor, ValidOptions, KeyBytes, TargetType, IsKeyColumn, Fits, ColumnBytes, Narrowed;
    if n > 0 {
      FitsOrExhausted(t, columns, key, n - 1);
      var before := ShrinkKey(t, columns, key, n - 1);
      ShrinkKeyNarrows(t, columns, key, n - 1);
      FitsAllKept(t, columns, before);
    }
  }

  /** Bytes that numeric columns of the key take beyond their declared size. */
  function Widening(t: MessageTable, columns: Shadow, key: seq<string>): int {
    if key == [] then 0
    else
      var name := key[|key| - 1];
      Widening(t, columns, key[..|key| - 1])
      + if Declares(t, name) && name in columns then Extra(t, FieldNamed(t, name), columns[name].def) else 0
  }

  /** With its key columns at their declared width a key takes the registered bytes plus the widenings. */
  lemma {:induction false} ExhaustedBytes(t: MessageTable, columns: Shadow, key: seq<string>)
    requires ValidDescriptor(t) && ValidOptions(t) && FitsAll(t, columns) && Exhausted(t, columns, key, |key|)
    requires forall c :: c in key ==> Declares(t, c)
    ensures KeyBytes(t, columns, key) == Some(DeclaredKeyBytes(t, key) + Widening(t, columns, key))
    ensures Widening(t, columns, key) >= 0
  {
    hide ValidDescriptor, ValidOptions, TargetType, IsKeyColumn, IndexKeyPartBytes, Extra, Fits;
    if key != [] {
      var n := |key| - 1;
      var f := FieldNamed(t, key[n]);
      ExhaustedBytes(t, columns, key[..n]);
      if IsKeyColumn(t, f) {
        DeclaredPartBytes(t, f);
        KeyPartShrinks(t, f, columns[f.name].def);
      } else {
        OtherPartBytes(t, f, columns[f.name].def);
      }
    }
  }

  /** A key that has had its turn. */
  ghost predicate Done(t: MessageTable, columns: Shadow, key: seq<string>) {
    !Over(t, columns, key) || Exhausted(t, columns, key, |key|)
  }

  lemma DoneStays(t: MessageTable, a: Shadow, b: Shadow, key: seq<string>)
    requires ValidDescriptor(t) && ValidOptions(t) && FitsAll(t, a) && Narrowed(t, a, b)
    requires (forall c :: c in key ==> Declares(t, c)) && Done(t, a, key)
    ensures Done(t, b, key)
  {
    hide ValidDescriptor, ValidOptions, FitsAll, TargetType, IsKeyColumn, ColumnBytes, KeyBytes;
    KeyBytesShrink(t, a, b, key);
  }

  ghost predicate DeclaredOnly(t: MessageTable, keys: seq<seq<string>>) {
    forall i, c :: 0 <= i < |keys| && c in keys[i] ==> Declares(t, c)
  }

  lemma {:induction false} AllDone(t: MessageTable, columns: Shadow, keys: seq<seq<string>>)
    requires ValidDescriptor(t) && ValidOptions(t) && FitsAll(t, columns) && DeclaredOnly(t, keys)
    ensures FitsAll(t, ShrinkKeys(t, columns, keys))
    ensures forall i :: 0 <= i < |keys| ==> Done(t, ShrinkKeys(t, columns, keys), keys[i])
  {
    hide ValidDescriptor, ValidOptions, FitsAll, Narrowed, Done, ShrinkKey;
    if keys != [] {
      var n := |keys| - 1;
      var before, after := ShrinkKeys(t, columns, keys[..n]), ShrinkKeys(t, columns, keys);
      AllDone(t, columns, keys[..n]);
      ShrinkKeyNarrows(t, before, keys[n], |keys[n]|);
      FitsAllKept(t, before, after);
      forall i | 0 <= i < n ensures Done(t, after, keys[i]) {
        assert keys[..n][i] == keys[i];
        DoneStays(t, before, after, keys[i]);
      }
      LastIsDone(t, before, keys[n]);
    }
  }

  lemma LastIsDone(t: MessageTable, columns: Shadow, key: seq<string>)
    requires ValidDescriptor(t) && ValidOptions(t) && FitsAll(t, columns) && forall c :: c in key ==> Declares(t, c)
    ensures Done(t, ShrinkKey(t, columns, key, |key|), key)
  {
    hide ValidDescriptor, ValidOptions, FitsAll, Over, Exhausted, ShrinkKey;
    FitsOrExhausted(t, columns, key, |key|);
  }

  /** The widenings are those the table had before: numeric columns are left alone. */
  lemma {:induction false} WideningStays(t: MessageTable, a: Shadow, b: Shadow, key: seq<string>)
    requires ValidDescriptor(t) && ValidOptions(t) && FitsAll(t, a) && Narrowed(t, a, b)
    requires forall c :: c in key ==> Declares(t, c)
    ensures Widening(t, b, key) == Widening(t, a, key)
  {
    hide ValidDescriptor, ValidOptions, TargetType, IsKeyColumn, Fits, Extra;
    if key != [] {
      WideningStays(t, a, b, key[..|key| - 1]);
      var f := FieldNamed(t, key[|key| - 1]);
      assert b[f.name] == a[f.name] || IsKeyColumn(t, f);
      if IsKeyColumn(t, f) {
        KeysDoNotWiden(t, f, a[f.name].def);
        KeysDoNotWiden(t, f, b[f.name].def);
      }
    }
  }

  lemma KeysDoNotWiden(t: MessageTable, f: Field, def: ColumnDef)
    requires IsKeyColumn(t, f)
    ensures Extra(t, f, def) == 0
  {
  }

  /** The budget: afterwards every declared key of known size takes at most the limit, or at most its
      registered bytes plus what the numeric columns it had kept wider take; without such columns it is
      within the limit. */
  lemma BudgetHolds(t: MessageTable, columns: Shadow, key: seq<string>)
    requires ValidDescriptor(t) && ValidOptions(t) && FitsAll(t, columns) && key in DeclaredKeys(t)
    ensures var after := ShrinkKeys(t, columns, DeclaredKeys(t));
      && (forall c :: c in key ==> Declares(t, c))
      && (KeyBytes(t, after, key).None? <==> KeyBytes(t, columns, key).None?)
      && (KeyBytes(t, after, key).Some? ==>
            && (KeyBytes(t, after, key).value <= MAX_INDEX_KEY_BYTES
                || KeyBytes(t, after, key).value == DeclaredKeyBytes(t, key) + Widening(t, columns, key))
            && (Widening(t, columns, key) == 0 ==> KeyBytes(t, after, key).value <= MAX_INDEX_KEY_BYTES))
  {
    hide ValidDescriptor, FitsAll, Narrowed, KeyBytes, Widening, Exhausted;
    var keys := DeclaredKeys(t);
    var after := ShrinkKeys(t, columns, keys);
    forall i, c | 0 <= i < |keys| && c in keys[i] ensures Declares(t, c) {
      assert keys[i] in keys;
    }
    AllDone(t, columns, keys);
    ShrinkKeysNarrows(t, columns, keys);
    KeyBytesShrink(t, columns, after, key);
    WideningStays(t, columns, after, key);
    var i :| 0 <= i < |keys| && keys[i] == key;
    assert Done(t, after, keys[i]);
    if Over(t, after, key) {
      ExhaustedBytes(t, after, key);
    }
  }

  /** When every declared key fits, nothing is taken back. */
  lemma {:induction false} FittingKeysStay(t: MessageTable, columns: Shadow, keys: seq<seq<string>>)
    requires forall i :: 0 <= i < |keys| ==> KeyBytes(t, columns, keys[i]).Some? ==> KeyBytes(t, columns, keys[i]).value <= 3072
    ensures ShrinkKeys(t, columns, keys) == columns
  {
    if keys != [] {
      FittingKeysStay(t, columns, keys[..|keys| - 1]);
      StopsForGood(t, columns, keys[|keys| - 1], 0, |keys[|keys| - 1]|);
    }
  }

  // ---------------------------------------------------------------- where the columns come from

  /** Online TEXT and BLOB columns carry no length. */
  ghost predicate PlainTexts(online: Columns) {
    forall n :: n in online && IsTextOrBlob(online[n].body.base) ==> online[n].body.length == 0
  }

  /** The columns of a rebuild are what the bound asks for. */
  lemma RebuiltColumnsFit(t: MessageTable, online: Columns, claims: seq<Option<string>>, legacy: set<string>, columns: Shadow)
    requires |claims| == |t.fields| && Filled(columns, t, online, claims, legacy, Fields(t)) && PlainTexts(online)
    ensures FitsAll(t, columns)
  {
    hide Fits, NewColumn;
    forall f | f in t.fields ensures f.name in columns && Fits(columns[f.name].def, TargetType(t, f)) {
      var i :| 0 <= i < |t.fields| && t.fields[i] == f;
      assert i in Fields(t);
      NewColumnFits(t, online, f, claims[i], legacy);
    }
  }

  lemma NewColumnFits(t: MessageTable, online: Columns, f: Field, claim: Option<string>, legacy: set<string>)
    requires PlainTexts(online)
    ensures Fits(NewColumn(t, online, f, claim, legacy).def, TargetType(t, f))
  {
    hide TargetType, IsTypeMatch, NarrowingSuppressed, Fold;
    TargetHasPlainTexts(t, f);
    if claim.Some? && claim.value in online {
      var meta, target := online[claim.value], TargetType(t, f);
      ShadowTypeFits(t, f, Some(meta), f.name in legacy);
    } else {
      ShadowTypeFits(t, f, None, f.name in legacy);
    }
  }

  lemma TargetHasPlainTexts(t: MessageTable, f: Field)
    ensures IsTextOrBlob(TargetType(t, f).body.base) ==> TargetType(t, f).body.length == 0
  {
  }
}
