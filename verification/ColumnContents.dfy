/** What a column can hold, said over contents and not over type names: what a field sends, that its
    declared column holds exactly that, and that wider in the planner's sense means holding more. */
module ColumnContents {
  import opened Wrappers
  import opened ColumnTypes
  import opened TableDef
  import opened ColumnPlanner
  import opened AlterTable
  import opened SchemaPlan
  import opened PlanLegality
  import opened PlanExecution
  import opened SchemaSettles
  import opened IndexBudget

  /** A value to be stored: a whole number, a binary fraction of some precision, a text with its characters
      and bytes, raw bytes, an instant with its fractional digits. */
  datatype Content = Whole(n: int) | Real(precision: nat) | Characters(chars: nat, size: nat) | Raw(size: nat) | Instant(digits: nat)

  /** Characters take one to four bytes. */
  predicate Possible(c: Content) {
    c.Characters? ==> c.chars <= c.size <= 4 * c.chars
  }

  // ---------------------------------------------------------------- what a column holds

  /** How many numbers an integer type distinguishes. */
  function Span(b: Base): nat {
    match b
    case TinyInt => 0x100
    case SmallInt => 0x1_0000
    case MediumInt => 0x100_0000
    case Int => 0x1_0000_0000
    case BigInt => 0x1_0000_0000_0000_0000
    case _ => 0
  }

  predicate InRange(b: TypeBody, n: int) {
    var span := Span(Normal(b.base));
    if b.unsigned then 0 <= n < span else -(span / 2) <= n < span / 2
  }

  /** Bytes a TEXT or BLOB type takes. */
  function Room(b: Base): nat {
    match b
    case TinyText | TinyBlob => 255
    case Text | Blob => 65535
    case MediumText | MediumBlob => 16777215
    case LongText | LongBlob => 4294967295
    case _ => 0
  }

  predicate Holds(b: TypeBody, c: Content) {
    match c
    case Whole(n) => InRange(b, n)
    case Real(precision) =>
      b.decimals == 0 && ((b.base == Float && precision <= 24) || (b.base == Double && precision <= 53))
    case Characters(chars, size) =>
      (match b.base
       case Char | VarChar => chars <= b.length
       case TinyText | Text | MediumText | LongText => size <= Room(b.base)
       case _ => false)
    case Raw(size) =>
      (match b.base
       case VarBinary => size <= b.length
       case Binary => size == b.length
       case TinyBlob | Blob | MediumBlob | LongBlob => size <= Room(b.base)
       case _ => false)
    case Instant(digits) => Normal(b.base) == DateTime && digits <= b.length
  }

  // ---------------------------------------------------------------- what a field sends

  const MEDIUM: nat := 16777215

  /** The length a key value is checked against: the declared one, or 191. */
  function KeyLimit(t: MessageTable, f: Field): nat {
    if f.name in t.maxLengths then t.maxLengths[f.name] else 191
  }

  /** The values of a field's kind; collections and messages are serialized, strings and bytes of the
      primary or unique key are checked against their length, instants are cut to microseconds. */
  predicate Sends(t: MessageTable, f: Field, c: Content) {
    var isKey := f.name in t.primaryKey || f.name in t.uniqueKey;
    if f.kind.TimestampKind? then c.Instant? && c.digits <= 6
    else if f.collection then c.Raw? && c.size <= MEDIUM
    else if isKey && f.kind.StringKind? then c.Characters? && c.chars <= KeyLimit(t, f)
    else if isKey && f.kind.BytesKind? then c.Raw? && c.size <= KeyLimit(t, f)
    else
      match f.kind
      case Int32Kind | EnumKind => c.Whole? && -0x8000_0000 <= c.n <= 0x7fff_ffff
      case Uint32Kind => c.Whole? && 0 <= c.n <= 0xffff_ffff
      case Int64Kind => c.Whole? && -0x8000_0000_0000_0000 <= c.n <= 0x7fff_ffff_ffff_ffff
      case Uint64Kind => c.Whole? && 0 <= c.n <= 0xffff_ffff_ffff_ffff
      case BoolKind => c.Whole? && 0 <= c.n <= 1
      case FloatKind => c.Real? && c.precision <= 24
      case DoubleKind => c.Real? && c.precision <= 53
      case StringKind => c.Characters? && c.size <= MEDIUM
      case BytesKind | MessageKind => c.Raw? && c.size <= MEDIUM
      case TimestampKind => false
  }

  /** The declared column holds exactly what its field sends; only a BOOL column, which is a TINYINT, has
      room for more. */
  lemma TargetHoldsExactly(t: MessageTable, f: Field, c: Content)
    requires Possible(c)
    ensures Sends(t, f, c) ==> Holds(TargetType(t, f).body, c)
    ensures Holds(TargetType(t, f).body, c) && (f.kind != BoolKind || f.collection) ==> Sends(t, f, c)
  {
    hide TargetType, Sends, Holds;
    if IsKeyColumn(t, f) && !f.kind.TimestampKind? {
      KeyHoldsExactly(t, f, c);
    } else {
      ScalarHoldsExactly(t, f, c);
    }
  }

  lemma KeyHoldsExactly(t: MessageTable, f: Field, c: Content)
    requires IsKeyColumn(t, f) && !f.kind.TimestampKind?
    ensures Sends(t, f, c) <==> Holds(TargetType(t, f).body, c)
  {
  }

  lemma ScalarHoldsExactly(t: MessageTable, f: Field, c: Content)
    requires !IsKeyColumn(t, f) || f.kind.TimestampKind?
    ensures Sends(t, f, c) ==> Holds(TargetType(t, f).body, c)
    ensures Holds(TargetType(t, f).body, c) && (f.kind != BoolKind || f.collection) ==> Sends(t, f, c)
  {
    hide KeyLimit;
    assert f.collection || f.kind.TimestampKind? || TargetType(t, f).body == ScalarType(f.kind).body;
  }

  predicate IsNumericField(f: Field) {
    !f.collection && !(f.kind.StringKind? || f.kind.BytesKind? || f.kind.MessageKind? || f.kind.TimestampKind?)
  }

  /** The other attributes: NOT NULL on keys and on numbers unless declared nullable; a default that is the
      field's unset value, so a writer that does not know the column can still insert; the collation that
      tells keys apart. */
  lemma TargetAttributes(t: MessageTable, f: Field)
    requires ValidDescriptor(t) && ValidOptions(t) && f in t.fields
    ensures var target := TargetType(t, f);
      && (target.notNull <==> IsKeyColumn(t, f) || (IsNumericField(f) && f.name !in t.nullableFields))
      && target.default_ == (if IsKeyColumn(t, f) then EmptyText
                             else if IsNumericField(f) && f.name != t.autoIncrementKey then Zero else NoDefault)
      && (target.autoIncrement <==> f.name == t.autoIncrementKey)
      && (target.notNull && target.default_ == NoDefault ==> target.autoIncrement)
      && target.collation == (if IsKeyColumn(t, f) && f.kind.StringKind? then KEY_STRING_COLLATION else "")
  {
    hide ValidOptions, ValidDescriptor;
    AutoTarget(t, f);
  }

  // ---------------------------------------------------------------- sorts of content

  /** What kind of content a type is for. */
  datatype Sort = Signed | Unsigned | Texts | Bytes | Reals | Instants | Foreign(base: Base)

  function SortOf(b: TypeBody): Sort {
    match b.base
    case TinyInt | SmallInt | MediumInt | Int | BigInt | Bool | Integer => if b.unsigned then Unsigned else Signed
    case Char | VarChar | TinyText | Text | MediumText | LongText => Texts
    case Binary | VarBinary | TinyBlob | Blob | MediumBlob | LongBlob => Bytes
    case Float | Double => Reals
    case DateTime | Timestamp => Instants
    case Unlisted(_) => Foreign(b.base)
  }

  /** A column is carried over to another type exactly when both are for the same kind of content. */
  lemma ComparableIsSameSort(a: TypeBody, b: TypeBody)
    ensures Comparable(a, b) <==> SortOf(a) == SortOf(b)
    ensures IsRenameConvertible(a, b) && !Comparable(a, b) <==> {SortOf(a), SortOf(b)} == {Signed, Unsigned}
  {
    var sorts := {SortOf(a), SortOf(b)};
    assert SortOf(a) in sorts && SortOf(b) in sorts;
    assert Signed in {Signed, Unsigned} && Unsigned in {Signed, Unsigned};
  }

  // ---------------------------------------------------------------- wider means holding more

  /** Types of one capacity scale: integers, TEXT types, BLOB types, fractions without fixed decimals, or
      one and the same sized type. */
  predicate OnOneScale(a: TypeBody, b: TypeBody) {
    var c, t := Normal(a.base), Normal(b.base);
    || (FamilyOf(c) == FamilyOf(t) == Integers && a.unsigned == b.unsigned)
    || (FamilyOf(a.base) == FamilyOf(b.base) != NoFamily && Room(a.base) > 0 && Room(b.base) > 0)
    || (FamilyOf(a.base) == FamilyOf(b.base) == Floats && a.decimals == b.decimals == 0)
    || (c == t && (c == VarChar || c == Char || c == VarBinary || c == DateTime))
  }

  /** A content that needs the whole type. */
  function Largest(b: TypeBody): Content {
    match Normal(b.base)
    case TinyInt | SmallInt | MediumInt | Int | BigInt =>
      var span := Span(Normal(b.base));
      Whole(if b.unsigned then span - 1 else span / 2 - 1)
    case Float => Real(24)
    case Double => Real(53)
    case VarChar | Char => Characters(b.length, b.length)
    case TinyText | Text | MediumText | LongText => Characters(Room(b.base), Room(b.base))
    case VarBinary | Binary => Raw(b.length)
    case DateTime => Instant(b.length)
    case _ => Raw(Room(b.base))
  }

  /** On one scale, matching is holding at least as much: a matching type holds everything, and one that
      does not match loses the largest content. */
  lemma WiderHoldsMore(a: TypeBody, b: TypeBody, c: Content)
    requires OnOneScale(a, b)
    ensures IsTypeMatch(a, b) && Holds(b, c) ==> Holds(a, c)
    ensures Possible(Largest(b)) && Holds(b, Largest(b))
    ensures !IsTypeMatch(a, b) ==> !Holds(a, Largest(b))
  {
  }

  /** The type an ALTER writes loses nothing the column held, signedness included. */
  lemma AlignedKeepsContents(a: TypeBody, b: TypeBody, c: Content)
    requires OnOneScale(a, b) || UnsafeSignednessChange(a, b)
    ensures Holds(a, c) ==> Holds(AlignedType(a, b), c)
    ensures OnOneScale(a, b) && Holds(b, c) ==> Holds(AlignedType(a, b), c)
  {
    hide Holds, OnOneScale;
    MatchIsWidth(a, b);
    MatchIsTotalPreorder(a, b, a);
    MatchIsTotalPreorder(b, a, b);
    if OnOneScale(a, b) {
      ScaleIsSymmetric(a, b);
      WiderHoldsMore(a, b, c);
      WiderHoldsMore(b, a, c);
      ComparableIsSameSort(a, b);
    }
  }

  lemma ScaleIsSymmetric(a: TypeBody, b: TypeBody)
    requires OnOneScale(a, b)
    ensures OnOneScale(b, a) && Comparable(a, b)
  {
  }

  /** Spellings of one type match both ways. */
  lemma SpellingsMatch(length: nat, unsigned: bool)
    ensures forall x, y :: (x, y) in {(Bool, TinyInt), (Integer, Int), (Timestamp, DateTime)} ==>
      var a, b := TypeBody(x, length, 0, unsigned), TypeBody(y, length, 0, unsigned);
      IsTypeMatch(a, b) && IsTypeMatch(b, a)
  {
  }

  /** Off the scales the ladder of names is not one of capacities: TINYTEXT counts as wider than
      VARCHAR(191), and FLOAT(7,2) as wide as FLOAT. */
  lemma NamesAreNotCapacities()
    ensures var a, b, c := Plain(TinyText), TypeBody(VarChar, 191, 0, false), Characters(191, 764);
      IsTypeMatch(a, b) && Possible(c) && Holds(b, c) && !Holds(a, c)
    ensures var a, b := TypeBody(Float, 7, 2, false), Plain(Float);
      IsTypeMatch(a, b) && Holds(b, Real(24)) && !Holds(a, Real(24))
  {
  }

  // ---------------------------------------------------------------- what the planner leaves

  /** A column that matches its field's declared type holds everything the field sends, when a key column
      has the shape of a key and a fraction has no fixed decimals. */
  lemma MatchingColumnHolds(t: MessageTable, f: Field, b: TypeBody, c: Content)
    requires IsTypeMatch(b, TargetType(t, f).body) && Possible(c) && Sends(t, f, c)
    requires IsKeyColumn(t, f) ==> Normal(b.base) == TargetType(t, f).body.base
    requires FamilyOf(Normal(b.base)) == Floats ==> b.decimals == 0
    ensures Holds(b, c)
  {
    hide TargetType, Sends;
    TargetHoldsExactly(t, f, c);
    ScaleOfTarget(t, f, b);
    WiderHoldsMore(b, TargetType(t, f).body, c);
  }

  lemma ScaleOfTarget(t: MessageTable, f: Field, b: TypeBody)
    requires IsTypeMatch(b, TargetType(t, f).body)
    requires IsKeyColumn(t, f) ==> Normal(b.base) == TargetType(t, f).body.base
    requires FamilyOf(Normal(b.base)) == Floats ==> b.decimals == 0
    ensures OnOneScale(b, TargetType(t, f).body)
  {
    hide KeyColumnLength, IsKeyColumnName;
  }

  /** After an accepted plan every field's column holds everything the field sends, unless it is a
      fraction kept with fixed decimals. */
  lemma PlannedColumnsHold(t: MessageTable, naming: Naming, o: Online, i: nat, c: Content)
    requires Planned(t, naming, o) && NamesKept(t, o) && i < |t.fields| && Possible(c) && Sends(t, t.fields[i], c)
    requires var b := FinalMeta(t, o.columns, i).body; FamilyOf(Normal(b.base)) == Floats ==> b.decimals == 0
    ensures Holds(FinalMeta(t, o.columns, i).body, c)
  {
    hide PlanFields, FoldDistinct, LegalTable, DistinctNaming, NamesKept, ValidOptions, FinalMeta, Drifts, Fold, TargetType, IsKeyColumn, Sends,
         Holds, Possible, IsTypeMatch;
    AttributesSettle(t, naming, o, i);
    MatchingColumnHolds(t, t.fields[i], FinalMeta(t, o.columns, i).body, c);
  }

  // ---------------------------------------------------------------- sizes in a key

  function Power256(n: nat): nat {
    if n == 0 then 1 else 256 * Power256(n - 1)
  }

  /** The size of a column in a key is that of its largest content: an integer's bytes tell its numbers
      apart, a text takes at most its size and may take all of it. */
  lemma PartBytesAreContents(b: TypeBody)
    ensures FamilyOf(Normal(b.base)) == Integers ==>
      PartBytes(b, None).Some? && Span(Normal(b.base)) == Power256(PartBytes(b, None).value)
    ensures (b.base == VarChar || b.base == Char) && b.length > 0 ==>
      var n := PartBytes(b, None);
      && n.Some? && (forall c :: Possible(c) && c.Characters? && Holds(b, c) ==> c.size <= n.value)
      && Possible(Characters(b.length, n.value)) && Holds(b, Characters(b.length, n.value))
    ensures b.base == VarBinary && b.length > 0 ==> PartBytes(b, None) == Some(b.length)
  {
    assert Power256(2) == 0x1_0000;
    assert Power256(3) == 0x100_0000;
    assert Power256(4) == 0x1_0000_0000;
    assert Power256(8) == 256 * (256 * (256 * (256 * Power256(4))));
  }
}
