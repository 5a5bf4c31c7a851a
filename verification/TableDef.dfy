/** A protobuf message mapped to a table: its fields, its table options, and the column type every
    field asks for. */
module TableDef {
  import opened ColumnTypes

  const TEXT_INDEX_PREFIX: nat := 191
  const DEFAULT_KEY_LENGTH: nat := 191
  const MAX_KEY_STRING_LENGTH: nat := 768
  const MAX_KEY_BYTES_LENGTH: nat := 3072
  const MAX_INDEX_KEY_BYTES: nat := 3072
  const KEY_STRING_COLLATION := "utf8mb4_0900_bin"
  const TABLE_COLLATION := "utf8mb4_unicode_ci"

  datatype Kind =
    | Int32Kind | Uint32Kind | Int64Kind | Uint64Kind
    | FloatKind | DoubleKind | BoolKind | EnumKind
    | StringKind | BytesKind | MessageKind | TimestampKind

  /** One message field; collection says repeated or map. */
  datatype Field = Field(name: string, number: nat, kind: Kind, collection: bool)

  datatype MessageTable = MessageTable(
    fields: seq<Field>,
    primaryKey: seq<string>,
    indexes: seq<seq<string>>,
    uniqueKey: seq<string>,
    autoIncrementKey: string,
    nullableFields: seq<string>,
    maxLengths: map<string, nat>
  )

  datatype Default = NoDefault | Zero | EmptyText

  /** A column definition as an ALTER or CREATE writes it. */
  datatype ColumnDef = ColumnDef(body: TypeBody, notNull: bool, default_: Default, autoIncrement: bool, collation: string)

  // ---------------------------------------------------------------- names

  function FoldChar(c: char): char {
    if 'A' <= c <= 'Z' then ((c as int) + 32) as char else c
  }

  /** Column and index names compare without regard to case. */
  function Fold(name: string): string {
    seq(|name|, i requires 0 <= i < |name| => FoldChar(name[i]))
  }

  // ---------------------------------------------------------------- column types

  predicate IsKeyColumnName(t: MessageTable, name: string) {
    name in t.primaryKey || name in t.uniqueKey
  }

  /** A scalar string or bytes field of the primary or unique key. */
  predicate IsKeyColumn(t: MessageTable, f: Field) {
    !f.collection && (f.kind.StringKind? || f.kind.BytesKind?) && IsKeyColumnName(t, f.name)
  }

  function KeyColumnLength(t: MessageTable, name: string): nat {
    if name in t.maxLengths then t.maxLengths[name] else DEFAULT_KEY_LENGTH
  }

  function Plain(b: Base): TypeBody { TypeBody(b, 0, 0, false) }

  function ScalarType(k: Kind): ColumnDef {
    match k
    case Int32Kind | EnumKind => ColumnDef(Plain(Int), true, Zero, false, "")
    case Uint32Kind => ColumnDef(Plain(Int).(unsigned := true), true, Zero, false, "")
    case Int64Kind => ColumnDef(Plain(BigInt), true, Zero, false, "")
    case Uint64Kind => ColumnDef(Plain(BigInt).(unsigned := true), true, Zero, false, "")
    case FloatKind => ColumnDef(Plain(Float), true, Zero, false, "")
    case DoubleKind => ColumnDef(Plain(Double), true, Zero, false, "")
    case BoolKind => ColumnDef(TypeBody(TinyInt, 1, 0, false), true, Zero, false, "")
    case StringKind => ColumnDef(Plain(MediumText), false, NoDefault, false, "")
    case BytesKind | MessageKind => ColumnDef(Plain(MediumBlob), false, NoDefault, false, "")
    case TimestampKind => ColumnDef(TypeBody(DateTime, 6, 0, false), false, NoDefault, false, "")
  }

  /** The column type a field asks for. */
  function TargetType(t: MessageTable, f: Field): ColumnDef {
    if f.kind.TimestampKind? then ScalarType(TimestampKind)
    else if f.collection then ColumnDef(Plain(MediumBlob), false, NoDefault, false, "")
    else if IsKeyColumn(t, f) then
      var n := KeyColumnLength(t, f.name);
      if f.kind.StringKind? then ColumnDef(TypeBody(VarChar, n, 0, false), true, EmptyText, false, KEY_STRING_COLLATION)
      else ColumnDef(TypeBody(VarBinary, n, 0, false), true, EmptyText, false, "")
    else
      var base := ScalarType(f.kind);
      var base := if f.name in t.nullableFields then base.(notNull := false) else base;
      if f.name == t.autoIncrementKey then base.(default_ := NoDefault, autoIncrement := true) else base
  }

  predicate IsTextOrBlob(b: Base) {
    match b
    case TinyText | Text | MediumText | LongText | TinyBlob | Blob | MediumBlob | LongBlob => true
    case _ => false
  }

  /** Indexes over TEXT and BLOB columns need a prefix length. */
  predicate NeedsIndexPrefix(t: MessageTable, name: string) {
    exists f | f in t.fields :: f.name == name && IsTextOrBlob(TargetType(t, f).body.base)
  }

  // ---------------------------------------------------------------- well-formed tables

  /** What protobuf guarantees of a message descriptor. */
  ghost predicate ValidDescriptor(t: MessageTable) {
    && (forall i, j :: 0 <= i < j < |t.fields| ==> t.fields[i].name != t.fields[j].name)
    && (forall i, j :: 0 <= i < j < |t.fields| ==> t.fields[i].number != t.fields[j].number)
    && (forall f :: f in t.fields ==> f.number > 0 && f.name != "")
  }

  /** No two fields differ in case only; MySQL could not hold both as columns. */
  ghost predicate FoldDistinct(t: MessageTable) {
    forall i, j :: 0 <= i < j < |t.fields| ==> Fold(t.fields[i].name) != Fold(t.fields[j].name)
  }

  predicate Declares(t: MessageTable, name: string) {
    exists f | f in t.fields :: f.name == name
  }

  /** The auto-increment column leads the primary key, some index or the unique key. */
  predicate AutoIncrementLeads(t: MessageTable) {
    || (|t.primaryKey| > 0 && t.primaryKey[0] == t.autoIncrementKey)
    || (exists i | 0 <= i < |t.indexes| :: |t.indexes[i]| > 0 && t.indexes[i][0] == t.autoIncrementKey)
    || (|t.uniqueKey| > 0 && t.uniqueKey[0] == t.autoIncrementKey)
  }

  predicate IsAutoIncrementKind(k: Kind) {
    k.Int32Kind? || k.Int64Kind? || k.Uint32Kind? || k.Uint64Kind?
  }

  /** Bytes a declared column takes in an index key. */
  function IndexKeyPartBytes(t: MessageTable, f: Field): nat {
    if f.kind.TimestampKind? then 8
    else if f.collection then TEXT_INDEX_PREFIX
    else if IsKeyColumn(t, f) then
      if f.kind.StringKind? then 4 * KeyColumnLength(t, f.name) else KeyColumnLength(t, f.name)
    else
      match f.kind
      case StringKind => 4 * TEXT_INDEX_PREFIX
      case BytesKind | MessageKind => TEXT_INDEX_PREFIX
      case Int32Kind | Uint32Kind | EnumKind | FloatKind => 4
      case Int64Kind | Uint64Kind | DoubleKind => 8
      case BoolKind => 1
      case TimestampKind => 8
  }

  function FieldNamed(t: MessageTable, name: string): (f: Field)
    requires Declares(t, name)
    ensures f in t.fields && f.name == name
  {
    FirstNamed(t.fields, name)
  }

  function FirstNamed(fields: seq<Field>, name: string): (f: Field)
    requires exists g | g in fields :: g.name == name
    ensures f in fields && f.name == name
  {
    if fields[0].name == name then fields[0] else FirstNamed(fields[1..], name)
  }

  /** Bytes a declared key takes. */
  function DeclaredKeyBytes(t: MessageTable, key: seq<string>): nat
    requires forall c :: c in key ==> Declares(t, c)
  {
    if key == [] then 0
    else DeclaredKeyBytes(t, key[..|key| - 1]) + IndexKeyPartBytes(t, FieldNamed(t, key[|key| - 1]))
  }

  /** All keys the table declares. */
  function DeclaredKeys(t: MessageTable): seq<seq<string>> {
    (if t.primaryKey == [] then [] else [t.primaryKey])
    + (if t.uniqueKey == [] then [] else [t.uniqueKey])
    + t.indexes
  }

  predicate NoRepeats(names: seq<string>) {
    forall i, j :: 0 <= i < j < |names| ==> names[i] != names[j]
  }

  /** What option validation guarantees before any DDL is produced. */
  ghost predicate ValidOptions(t: MessageTable) {
    && (forall k :: k in DeclaredKeys(t) ==>
          k != [] && NoRepeats(k) && (forall c :: c in k ==> Declares(t, c)) && DeclaredKeyBytes(t, k) <= MAX_INDEX_KEY_BYTES)
    && (forall c :: c in t.primaryKey ==>
          Declares(t, c) && !NeedsIndexPrefix(t, c) && TargetType(t, FieldNamed(t, c)).notNull)
    && (forall c :: c in t.nullableFields ==>
          Declares(t, c) && !IsKeyColumn(t, FieldNamed(t, c)) && c !in t.primaryKey)
    && (forall c :: c in t.maxLengths ==>
          && Declares(t, c) && IsKeyColumn(t, FieldNamed(t, c))
          && 1 <= t.maxLengths[c]
          && t.maxLengths[c] <= (if FieldNamed(t, c).kind.StringKind? then MAX_KEY_STRING_LENGTH else MAX_KEY_BYTES_LENGTH))
    && (t.autoIncrementKey != "" ==>
          && Declares(t, t.autoIncrementKey) && t.autoIncrementKey !in t.nullableFields
          && !FieldNamed(t, t.autoIncrementKey).collection && IsAutoIncrementKind(FieldNamed(t, t.autoIncrementKey).kind)
          && AutoIncrementLeads(t))
  }

  // ---------------------------------------------------------------- one field a name

  /** Where names are distinct up to case, a name belongs to one field. */
  lemma SameFold(t: MessageTable, i: nat, j: nat)
    requires FoldDistinct(t) && i < |t.fields| && j < |t.fields|
    ensures Fold(t.fields[i].name) == Fold(t.fields[j].name) <==> i == j
  {
    hide Fold;
    if i < j {
      assert Fold(t.fields[i].name) != Fold(t.fields[j].name);
    } else if j < i {
      assert Fold(t.fields[j].name) != Fold(t.fields[i].name);
    }
  }

  /** Declared names that agree up to case are the same name. */
  lemma SameField(t: MessageTable, a: string, b: string)
    requires FoldDistinct(t) && Declares(t, a) && Declares(t, b) && Fold(a) == Fold(b)
    ensures a == b
  {
    hide Fold;
    var f :| f in t.fields && f.name == a;
    var g :| g in t.fields && g.name == b;
    var i :| 0 <= i < |t.fields| && t.fields[i] == f;
    var j :| 0 <= j < |t.fields| && t.fields[j] == g;
    SameFold(t, i, j);
  }

  lemma SameNameSameField(t: MessageTable, f: Field)
    requires ValidDescriptor(t) && f in t.fields
    ensures forall g :: g in t.fields && g.name == f.name ==> g == f
  {
    forall g | g in t.fields && g.name == f.name ensures g == f {
      var i :| 0 <= i < |t.fields| && t.fields[i] == f;
      var j :| 0 <= j < |t.fields| && t.fields[j] == g;
      assert !(i < j) && !(j < i);
    }
  }
}
