/** MySQL column types as the schema planner compares them: families, ranks, widths, and which of two
    types can hold the other. */
module ColumnTypes {

  datatype Base =
    | TinyInt | SmallInt | MediumInt | Int | BigInt
    | Char | VarChar | TinyText | Text | MediumText | LongText
    | Binary | VarBinary | TinyBlob | Blob | MediumBlob | LongBlob
    | Float | Double
    | DateTime
    | Bool | Integer | Timestamp          // spellings folded by Normal
    | Unlisted(name: string)

  /** A parsed type body: what stands in front of NOT NULL, DEFAULT and the other attributes. */
  datatype TypeBody = TypeBody(base: Base, length: nat, decimals: nat, unsigned: bool)

  datatype Family = Integers | Strings | Binaries | Floats | NoFamily

  function Normal(b: Base): Base {
    match b
    case Bool => TinyInt
    case Integer => Int
    case Timestamp => DateTime
    case _ => b
  }

  function FamilyOf(b: Base): Family {
    match b
    case TinyInt | SmallInt | MediumInt | Int | BigInt => Integers
    case Char | VarChar | TinyText | Text | MediumText | LongText => Strings
    case Binary | VarBinary | TinyBlob | Blob | MediumBlob | LongBlob => Binaries
    case Float | Double => Floats
    case _ => NoFamily
  }

  /** Position on the family's capacity ladder. */
  function Rank(b: Base): nat {
    match b
    case TinyInt | Char | Binary | Float => 1
    case SmallInt | VarChar | VarBinary | Double => 2
    case MediumInt | TinyText | TinyBlob => 3
    case Int | Text | Blob => 4
    case BigInt | MediumText | MediumBlob => 5
    case LongText | LongBlob => 6
    case _ => 0
  }

  /** The online type can hold everything the target type can: nothing to alter. */
  predicate IsTypeMatch(current: TypeBody, target: TypeBody) {
    var c, t := Normal(current.base), Normal(target.base);
    if c != t then
      if FamilyOf(c) == NoFamily || FamilyOf(c) != FamilyOf(t) then false
      else if FamilyOf(c) == Integers && current.unsigned != target.unsigned then false
      else Rank(c) >= Rank(t)
    else
      match c
      case VarChar | Char | VarBinary | Binary | DateTime => current.length >= target.length
      case TinyInt | SmallInt | MediumInt | Int | BigInt => current.unsigned == target.unsigned
      case Float | Double => current.decimals >= target.decimals
      case _ => true
  }

  /** Both sides are integers of different signedness: neither holds the other. */
  predicate UnsafeSignednessChange(current: TypeBody, target: TypeBody) {
    && FamilyOf(Normal(current.base)) == Integers && FamilyOf(Normal(target.base)) == Integers
    && current.unsigned != target.unsigned
  }

  /** A column of the current type can be carried over to the target type at all. */
  predicate IsRenameConvertible(current: TypeBody, target: TypeBody) {
    var c, t := Normal(current.base), Normal(target.base);
    c == t || (FamilyOf(c) != NoFamily && FamilyOf(c) == FamilyOf(t))
  }

  /** The online type is left alone because it is the wider one. */
  predicate NarrowingSuppressed(current: TypeBody, target: TypeBody) {
    var c, t := Normal(current.base), Normal(target.base);
    if c != t then
      if FamilyOf(c) == NoFamily || FamilyOf(c) != FamilyOf(t) then false
      else if FamilyOf(c) == Integers && current.unsigned != target.unsigned then false
      else Rank(c) > Rank(t)
    else
      match c
      case VarChar | Char | VarBinary | Binary | DateTime => current.length > target.length
      case Float | Double => current.decimals > target.decimals
      case _ => false
  }

  /** The body an ALTER writes: the target's, unless that would narrow the column or flip its sign. */
  function AlignedType(current: TypeBody, target: TypeBody): TypeBody {
    if UnsafeSignednessChange(current, target) then current
    else if NarrowingSuppressed(current, target) then current
    else target
  }

  /** One family (or one type outside the families) and, for integers, one signedness. */
  predicate Comparable(a: TypeBody, b: TypeBody) {
    IsRenameConvertible(a, b) && !UnsafeSignednessChange(a, b)
  }

  // ---------------------------------------------------------------- an independent measure of width

  /** Width as a pair: the rank on the ladder, then the size within one type. */
  function Width(t: TypeBody): (nat, nat) {
    var b := Normal(t.base);
    (Rank(b), match b
      case VarChar | Char | VarBinary | Binary | DateTime => t.length
      case Float | Double => t.decimals
      case _ => 0)
  }

  predicate AtLeastAsWide(a: (nat, nat), b: (nat, nat)) {
    a.0 > b.0 || (a.0 == b.0 && a.1 >= b.1)
  }

  lemma RankIdentifies(a: Base, b: Base)
    requires FamilyOf(a) == FamilyOf(b) != NoFamily && Rank(a) == Rank(b)
    ensures a == b
  {
  }

  /** Matching is exactly: comparable and at least as wide; suppression is exactly: strictly wider. */
  lemma MatchIsWidth(a: TypeBody, b: TypeBody)
    ensures IsTypeMatch(a, b) <==> Comparable(a, b) && AtLeastAsWide(Width(a), Width(b))
    ensures NarrowingSuppressed(a, b) <==> Comparable(a, b) && AtLeastAsWide(Width(a), Width(b)) && Width(a) != Width(b)
    ensures NarrowingSuppressed(a, b) <==> IsTypeMatch(a, b) && !IsTypeMatch(b, a)
  {
    var c, t := Normal(a.base), Normal(b.base);
    if c != t && FamilyOf(c) == FamilyOf(t) != NoFamily && Rank(c) == Rank(t) {
      RankIdentifies(c, t);
    }
  }

  /** Comparable is an equivalence: families and signednesses partition the types. */
  lemma ComparablePartitions(a: TypeBody, b: TypeBody, c: TypeBody)
    ensures Comparable(a, a)
    ensures Comparable(a, b) ==> Comparable(b, a)
    ensures Comparable(a, b) && Comparable(b, c) ==> Comparable(a, c)
  {
  }

  /** Within one family and signedness, matching is a total preorder. */
  lemma MatchIsTotalPreorder(a: TypeBody, b: TypeBody, c: TypeBody)
    ensures IsTypeMatch(a, a)
    ensures IsTypeMatch(a, b) && IsTypeMatch(b, c) ==> IsTypeMatch(a, c)
    ensures Comparable(a, b) <==> IsTypeMatch(a, b) || IsTypeMatch(b, a)
  {
    MatchIsWidth(a, b);
    MatchIsWidth(b, a);
    MatchIsWidth(b, c);
    MatchIsWidth(a, c);
    ComparablePartitions(a, b, c);
    ComparablePartitions(b, a, c);
  }

  /** The aligned type is the join: it holds both types, and every type holding both holds it. */
  lemma AlignedIsJoin(current: TypeBody, target: TypeBody, upper: TypeBody)
    requires Comparable(current, target)
    ensures IsTypeMatch(AlignedType(current, target), current)
    ensures IsTypeMatch(AlignedType(current, target), target)
    ensures IsTypeMatch(upper, current) && IsTypeMatch(upper, target) ==> IsTypeMatch(upper, AlignedType(current, target))
    ensures IsTypeMatch(current, target) && IsTypeMatch(target, current) ==> AlignedType(current, target) == target
  {
    MatchIsWidth(current, target);
    MatchIsTotalPreorder(current, target, target);
    MatchIsTotalPreorder(target, current, current);
  }
}
