/** Fence tuples: the version columns a row carries, the order they are compared in,
    and the SQL predicate that decides inside one UPDATE whether a write may pass. */
module Fence {

  type Column = string

  /** A stored cell or a bound parameter. Fence columns are unsigned integer columns, so they hold
      UInt or, when the online column was made nullable, Null. */
  datatype Value = Null | UInt(n: nat) | Other(repr: string)

  type Row = map<Column, Value>

  function Cell(row: Row, column: Column): Value {
    if column in row then row[column] else Null
  }

  // ---------------------------------------------------------------- order on tuples

  /** Three-way lexicographic comparison, the Go-side decision. */
  function Compare(a: seq<nat>, b: seq<nat>): int {
    if a == [] then (if b == [] then 0 else -1)
    else if b == [] then 1
    else if a[0] < b[0] then -1
    else if a[0] > b[0] then 1
    else Compare(a[1..], b[1..])
  }

  /** Whether a stored tuple lets the message through. */
  predicate ConditionHolds(stored: seq<nat>, target: seq<nat>, allowEqual: bool) {
    var c := Compare(stored, target);
    c < 0 || (c == 0 && allowEqual)
  }

  predicate AtMost(a: seq<nat>, b: seq<nat>) { Compare(a, b) <= 0 }

  lemma {:induction false} CompareZero(a: seq<nat>, b: seq<nat>)
    ensures Compare(a, b) == 0 <==> a == b
  {
    if a != [] && b != [] {
      CompareZero(a[1..], b[1..]);
      assert a == [a[0]] + a[1..] && b == [b[0]] + b[1..];
    }
  }

  lemma {:induction false} CompareFlips(a: seq<nat>, b: seq<nat>)
    ensures Compare(a, b) < 0 <==> Compare(b, a) > 0
    ensures Compare(a, b) > 0 <==> Compare(b, a) < 0
  {
    if a != [] && b != [] {
      CompareFlips(a[1..], b[1..]);
    }
  }

  lemma {:induction false} AtMostTransitive(a: seq<nat>, b: seq<nat>, c: seq<nat>)
    requires AtMost(a, b) && AtMost(b, c)
    ensures AtMost(a, c)
    ensures Compare(a, b) < 0 || Compare(b, c) < 0 ==> Compare(a, c) < 0
  {
    if a != [] && b != [] && c != [] && a[0] == b[0] == c[0] {
      AtMostTransitive(a[1..], b[1..], c[1..]);
    }
  }

  /** The order is total: of two tuples one is at most the other, and both only when equal. */
  lemma AtMostTotal(a: seq<nat>, b: seq<nat>)
    ensures AtMost(a, b) || AtMost(b, a)
    ensures AtMost(a, b) && AtMost(b, a) <==> a == b
    ensures !AtMost(a, b) <==> Compare(b, a) < 0
  {
    CompareZero(a, b);
    CompareFlips(a, b);
  }

  // ---------------------------------------------------------------- predicates with placeholders

  datatype Truth = True | False | Unknown

  datatype Op = Lt | Le | Eq

  /** A WHERE condition. Every comparison takes its right operand from the next placeholder. */
  datatype Condition =
    | Test(column: Column, op: Op)
    | Or(left: Condition, right: Condition)
    | And(left: Condition, right: Condition)

  function Placeholders(c: Condition): (n: nat)
    ensures n > 0
  {
    match c
    case Test(_, _) => 1
    case Or(l, r) => Placeholders(l) + Placeholders(r)
    case And(l, r) => Placeholders(l) + Placeholders(r)
  }

  function TestCell(cell: Value, op: Op, arg: nat): Truth {
    if !cell.UInt? then Unknown
    else
      var holds := match op
        case Lt => cell.n < arg
        case Le => cell.n <= arg
        case Eq => cell.n == arg;
      if holds then True else False
  }

  function OrTruth(a: Truth, b: Truth): Truth {
    if a.True? || b.True? then True else if a.Unknown? || b.Unknown? then Unknown else False
  }

  function AndTruth(a: Truth, b: Truth): Truth {
    if a.False? || b.False? then False else if a.Unknown? || b.Unknown? then Unknown else True
  }

  /** SQL evaluation: three-valued, arguments bound to placeholders from left to right. */
  function Eval(c: Condition, row: Row, args: seq<nat>): Truth
    requires |args| == Placeholders(c)
  {
    match c
    case Test(column, op) => TestCell(Cell(row, column), op, args[0])
    case Or(l, r) => OrTruth(Eval(l, row, args[..Placeholders(l)]), Eval(r, row, args[Placeholders(l)..]))
    case And(l, r) => AndTruth(Eval(l, row, args[..Placeholders(l)]), Eval(r, row, args[Placeholders(l)..]))
  }

  /** The nested condition over a suffix of the fence columns. */
  function Nested(fields: seq<Column>, allowEqual: bool): Condition
    requires |fields| > 0
  {
    if |fields| == 1 then Test(fields[0], if allowEqual then Le else Lt)
    else Or(Test(fields[0], Lt), And(Test(fields[0], Eq), Nested(fields[1..], allowEqual)))
  }

  /** Its arguments: every value twice, except the last. */
  function NestedArgs(values: seq<nat>): seq<nat>
    requires |values| > 0
  {
    if |values| == 1 then values else [values[0], values[0]] + NestedArgs(values[1..])
  }

  lemma {:induction false} NestedFits(fields: seq<Column>, values: seq<nat>, allowEqual: bool)
    requires |fields| == |values| > 0
    ensures |NestedArgs(values)| == Placeholders(Nested(fields, allowEqual))
  {
    if |fields| > 1 {
      NestedFits(fields[1..], values[1..], allowEqual);
      var rest := And(Test(fields[0], Eq), Nested(fields[1..], allowEqual));
      assert Placeholders(rest) == 1 + |NestedArgs(values[1..])|;
    }
  }

  /** The condition grows from the last column outwards and its arguments are put in front. */
  method FencePredicate(fields: seq<Column>, values: seq<nat>, allowEqual: bool)
    returns (condition: Condition, args: seq<nat>)
    requires |fields| == |values| > 0
    ensures condition == Nested(fields, allowEqual)
    ensures args == NestedArgs(values)
    ensures |args| == Placeholders(condition)
  {
    var last := |fields| - 1;
    condition := Test(fields[last], if allowEqual then Le else Lt);
    args := [values[last]];
    assert fields[last..] == [fields[last]] && values[last..] == [values[last]];
    var i := last;
    while i > 0
      invariant 0 <= i <= last
      invariant condition == Nested(fields[i..], allowEqual)
      invariant args == NestedArgs(values[i..])
    {
      i := i - 1;
      assert fields[i..][1..] == fields[i + 1..] && values[i..][1..] == values[i + 1..];
      condition := Or(Test(fields[i], Lt), And(Test(fields[i], Eq), condition));
      args := [values[i], values[i]] + args;
    }
    assert fields[0..] == fields && values[0..] == values;
    NestedFits(fields, values, allowEqual);
  }

  // ---------------------------------------------------------------- what the predicate means

  /** Position i decides: everything before it is equal and cell i is strictly below. */
  predicate DecidesAt(row: Row, fields: seq<Column>, values: seq<nat>, i: nat)
    requires |fields| == |values| && i < |fields|
  {
    && (forall j :: 0 <= j < i ==> Cell(row, fields[j]) == UInt(values[j]))
    && Cell(row, fields[i]).UInt?
    && Cell(row, fields[i]).n < values[i]
  }

  predicate AllEqual(row: Row, fields: seq<Column>, values: seq<nat>)
    requires |fields| == |values|
  {
    forall j :: 0 <= j < |fields| ==> Cell(row, fields[j]) == UInt(values[j])
  }

  /** The row's fence is lexicographically below the target (or equal, when that is allowed);
      a Null cell can only matter behind the deciding position. */
  predicate Below(row: Row, fields: seq<Column>, values: seq<nat>, allowEqual: bool)
    requires |fields| == |values|
  {
    || (exists i | 0 <= i < |fields| :: DecidesAt(row, fields, values, i))
    || (allowEqual && AllEqual(row, fields, values))
  }

  lemma BelowTail(row: Row, fields: seq<Column>, values: seq<nat>, allowEqual: bool)
    requires |fields| == |values| > 0
    ensures Below(row, fields, values, allowEqual) <==>
            DecidesAt(row, fields, values, 0)
            || (Cell(row, fields[0]) == UInt(values[0]) && Below(row, fields[1..], values[1..], allowEqual))
  {
    var ft, vt := fields[1..], values[1..];
    forall i: nat | 0 < i < |fields|
      ensures DecidesAt(row, fields, values, i) <==>
              Cell(row, fields[0]) == UInt(values[0]) && DecidesAt(row, ft, vt, i - 1)
    {
      assert forall j :: 0 < j < i ==> fields[j] == ft[j - 1] && values[j] == vt[j - 1];
      assert forall j :: 0 <= j < i - 1 ==> ft[j] == fields[j + 1] && vt[j] == values[j + 1];
    }
    if Cell(row, fields[0]) == UInt(values[0]) && Below(row, ft, vt, allowEqual) {
      if i: nat :| i < |ft| && DecidesAt(row, ft, vt, i) {
        assert DecidesAt(row, fields, values, i + 1);
      } else {
        assert forall j :: 0 < j < |fields| ==> fields[j] == ft[j - 1] && values[j] == vt[j - 1];
        assert AllEqual(row, fields, values);
      }
    }
    if Below(row, fields, values, allowEqual) && !DecidesAt(row, fields, values, 0) {
      if i: nat :| i < |fields| && DecidesAt(row, fields, values, i) {
        assert DecidesAt(row, ft, vt, i - 1);
      } else {
        assert forall j :: 0 <= j < |ft| ==> ft[j] == fields[j + 1] && vt[j] == values[j + 1];
        assert AllEqual(row, ft, vt);
      }
    }
  }

  lemma OneColumn(row: Row, fields: seq<Column>, values: seq<nat>, allowEqual: bool)
    requires |fields| == |values| == 1
    ensures Eval(Nested(fields, allowEqual), row, NestedArgs(values)).True? <==> Below(row, fields, values, allowEqual)
  {
    assert DecidesAt(row, fields, values, 0) <==> Cell(row, fields[0]).UInt? && Cell(row, fields[0]).n < values[0];
    assert AllEqual(row, fields, values) <==> Cell(row, fields[0]) == UInt(values[0]);
  }

  /** The first column decides, or it is equal and the rest does. */
  lemma EvalUnfolds(row: Row, fields: seq<Column>, values: seq<nat>, allowEqual: bool)
    requires |fields| == |values| > 1
    requires |NestedArgs(values)| == Placeholders(Nested(fields, allowEqual))
    requires |NestedArgs(values[1..])| == Placeholders(Nested(fields[1..], allowEqual))
    ensures Eval(Nested(fields, allowEqual), row, NestedArgs(values)).True? <==>
      || TestCell(Cell(row, fields[0]), Lt, values[0]).True?
      || (TestCell(Cell(row, fields[0]), Eq, values[0]).True?
          && Eval(Nested(fields[1..], allowEqual), row, NestedArgs(values[1..])).True?)
  {
    var args := NestedArgs(values);
    var inner := NestedArgs(values[1..]);
    var rest := args[1..];
    assert args[..1] == [values[0]];
    assert rest[..1] == [values[0]];
    assert rest[1..] == inner;
    var tail := And(Test(fields[0], Eq), Nested(fields[1..], allowEqual));
    assert Placeholders(tail) == 1 + |inner| == |rest|;
    assert Eval(tail, row, rest) == AndTruth(TestCell(Cell(row, fields[0]), Eq, values[0]),
                                             Eval(Nested(fields[1..], allowEqual), row, inner));
  }

  /** For any number of fence columns and any row, Null cells included, the predicate with its
      arguments bound left to right is true exactly when the row's fence is below the target. */
  lemma {:induction false} FencePredicateMeaning(row: Row, fields: seq<Column>, values: seq<nat>, allowEqual: bool)
    requires |fields| == |values| > 0
    requires |NestedArgs(values)| == Placeholders(Nested(fields, allowEqual))
    ensures Eval(Nested(fields, allowEqual), row, NestedArgs(values)).True? <==> Below(row, fields, values, allowEqual)
  {
    hide Eval, Nested, NestedArgs, Below, Placeholders;
    if |fields| == 1 {
      OneColumn(row, fields, values, allowEqual);
    } else {
      NestedFits(fields[1..], values[1..], allowEqual);
      BelowTail(row, fields, values, allowEqual);
      EvalUnfolds(row, fields, values, allowEqual);
      FencePredicateMeaning(row, fields[1..], values[1..], allowEqual);
    }
  }

  // ---------------------------------------------------------------- SQL side and Go side agree

  predicate HasFence(row: Row, fields: seq<Column>) {
    forall j :: 0 <= j < |fields| ==> Cell(row, fields[j]).UInt?
  }

  /** The fence tuple a state query reads. */
  function FenceOf(row: Row, fields: seq<Column>): (f: seq<nat>)
    requires HasFence(row, fields)
    ensures |f| == |fields|
    ensures forall j :: 0 <= j < |f| ==> Cell(row, fields[j]) == UInt(f[j])
  {
    seq(|fields|, j requires 0 <= j < |fields| && HasFence(row, fields) => Cell(row, fields[j]).n)
  }

  lemma {:induction false} BelowIsCondition(row: Row, fields: seq<Column>, values: seq<nat>, allowEqual: bool)
    requires |fields| == |values|
    requires HasFence(row, fields)
    ensures Below(row, fields, values, allowEqual) <==> ConditionHolds(FenceOf(row, fields), values, allowEqual)
  {
    if |fields| == 0 {
      assert AllEqual(row, fields, values);
    } else {
      assert HasFence(row, fields[1..]) by {
        assert forall j :: 0 <= j < |fields| - 1 ==> fields[1..][j] == fields[j + 1];
      }
      assert FenceOf(row, fields)[1..] == FenceOf(row, fields[1..]);
      BelowIsCondition(row, fields[1..], values[1..], allowEqual);
      BelowTail(row, fields, values, allowEqual);
    }
  }

  /** The decision MySQL takes inside the UPDATE and the decision taken on the tuple read back
      are the same decision, on every row whose fence columns are not Null. */
  lemma SqlAndGoAgree(row: Row, fields: seq<Column>, values: seq<nat>, allowEqual: bool)
    requires |fields| == |values| > 0
    requires HasFence(row, fields)
    requires |NestedArgs(values)| == Placeholders(Nested(fields, allowEqual))
    ensures Eval(Nested(fields, allowEqual), row, NestedArgs(values)).True?
       <==> ConditionHolds(FenceOf(row, fields), values, allowEqual)
  {
    FencePredicateMeaning(row, fields, values, allowEqual);
    BelowIsCondition(row, fields, values, allowEqual);
  }

  /** A strict condition never passes an all-zero target, which is why such a plan is refused. */
  lemma StrictZeroNeverHolds(stored: seq<nat>, target: seq<nat>)
    requires |stored| == |target|
    requires forall i :: 0 <= i < |target| ==> target[i] == 0
    ensures !ConditionHolds(stored, target, false)
  {
    if |target| > 0 {
      StrictZeroNeverHolds(stored[1..], target[1..]);
    }
  }
}
