/** The unfenced whole-row save: UPDATE by primary key, INSERT, retried UPDATE, and a final comparison
    that reuses the arguments of the UPDATE. */
module PlainSave {
  import opened Wrappers
  import opened Fence
  import opened SaveStatements

  /** Conflict is the duplicate-key error; Failed any other statement error, after which the caller can
      not know whether the statement was executed. */
  datatype SaveReply = Saved | Conflict | Failed

  /** A plan without a fence. */
  ghost predicate WholeRow(p: Plan) {
    ValidPlan(p) && p.fence == []
  }

  /** Statements change no row but the one under the plan's key. */
  ghost predicate OnlyOwnRow(p: Plan, before: Table, after: Table) {
    forall k :: k != p.key ==> (k in before <==> k in after) && (k in before ==> before[k] == after[k])
  }

  /** The row under the key is the message on every column a save sets. */
  ghost predicate IsTarget(e: Engine, p: Plan, t: Table) {
    p.key in t && AlreadyStored(e, p, t[p.key])
  }

  lemma UpdateEffect(e: Engine, p: Plan, t: Table)
    requires WholeRow(p)
    ensures var (t', r) := ExecUpdate(e, p, t);
      && OnlyOwnRow(p, t, t')
      && (r.Affected? && r.rows > 0 ==> IsTarget(e, p, t'))
      && (r.Duplicate? ==> t' == t && p.key in t && Clashes(e, t, p.key, Updated(e, p, t[p.key])))
      && (r == Affected(0) ==> t' == t && (p.key in t ==> AlreadyStored(e, p, t[p.key])))
  {
    if p.key in t {
      WrittenRow(e, p, t[p.key]);
    }
  }

  lemma InsertEffect(e: Engine, p: Plan, t: Table)
    requires WholeRow(p)
    ensures var (t', r) := ExecInsert(e, p, t);
      && OnlyOwnRow(p, t, t')
      && (r.Affected? ==> IsTarget(e, p, t'))
      && (r.Duplicate? ==> t' == t && (p.key in t || Clashes(e, t, p.key, Fresh(e, p))))
  {
    WrittenRow(e, p, map[]);
  }

  // ---------------------------------------------------------------- the statements of a call

  /** What follows a statement: the next one, or the end of the call. */
  datatype Next = Go | Done(reply: SaveReply)

  function AfterExec(k: nat, r: ExecResult): Next {
    if k == 1 then (if r.Duplicate? then Go else Done(Saved))
    else if r.Duplicate? then Done(Conflict)
    else if r.rows > 0 then Done(Saved) else Go
  }

  /** Statement k on the table it finds: UPDATE, INSERT, UPDATE, row comparison. */
  function Statement(e: Engine, p: Plan, k: nat, t: Table): (Table, Next)
    requires |p.fence| == |p.target|
  {
    if k == 0 || k == 2 then
      var (t', r) := ExecUpdate(e, p, t);
      (t', AfterExec(k, r))
    else if k == 1 then
      var (t', r) := ExecInsert(e, p, t);
      (t', AfterExec(k, r))
    else (t, Done(if RowMatches(e, p, t) then Saved else Conflict))
  }

  /** The statements sent so far have all led on. */
  ghost predicate Underway(e: Engine, p: Plan, found: seq<Table>, left: seq<Table>)
    requires |p.fence| == |p.target|
  {
    |found| == |left| <= 3 && forall k :: 0 <= k < |found| ==> Statement(e, p, k, found[k]) == (left[k], Go)
  }

  /** A whole call over the tables its statements found: all but the last statement led on, and the last
      one ended it or failed, executed or not. */
  ghost predicate Traced(e: Engine, p: Plan, found: seq<Table>, left: seq<Table>, r: SaveReply)
    requires |p.fence| == |p.target|
  {
    && 1 <= |found| == |left| <= 4
    && var n := |found| - 1;
    && Underway(e, p, found[..n], left[..n])
    && var (t, next) := Statement(e, p, n, found[n]);
    || (next == Done(r) && left[n] == t)
    || (r == Failed && (left[n] == t || left[n] == found[n]))
  }

  /** A connection whose statements interleave with other writers'. */
  class Connection {
    const engine: Engine
    var table: Table
    ghost var found: seq<Table>
    ghost var left: seq<Table>

    constructor (engine: Engine, table: Table)
      ensures this.engine == engine && this.table == table && found == left == []
    {
      this.engine, this.table := engine, table;
      found, left := [], [];
    }

    /** Any number of other writers' statements. */
    method Others()
      modifies this`table
    {
      table := *;
    }

    ghost predicate On(p: Plan, k: nat)
      requires |p.fence| == |p.target|
      reads this
    {
      Underway(engine, p, found, left) && |found| == k
    }

    /** UPDATE or INSERT. None: an error that is not a duplicate key; the statement may have been executed. */
    method Exec(p: Plan, k: nat) returns (r: Option<ExecResult>)
      requires |p.fence| == |p.target| && k <= 2 && On(p, k)
      modifies this
      ensures r.None? ==> Traced(engine, p, found, left, Failed)
      ensures r.Some? ==>
        match AfterExec(k, r.value)
        case Go => On(p, k + 1)
        case Done(reply) => Traced(engine, p, found, left, reply)
    {
      Others();
      ghost var t := table;
      var executed, answered: bool := *, *;
      var (t', result) := if k == 1 then ExecInsert(engine, p, table) else ExecUpdate(engine, p, table);
      if executed || answered {
        table := t';
      }
      Extend(engine, p, found, left, t, table);
      found, left := found + [t], left + [table];
      r := if answered then Some(result) else None;
    }

    method Matches(p: Plan) returns (r: Option<bool>)
      requires |p.fence| == |p.target| && On(p, 3)
      modifies this
      ensures Traced(engine, p, found, left, if r.None? then Failed else if r.value then Saved else Conflict)
    {
      Others();
      Extend(engine, p, found, left, table, table);
      found, left := found + [table], left + [table];
      var answered: bool := *;
      r := if answered then Some(RowMatches(engine, p, table)) else None;
    }

    /** UPDATE; if that changed nothing INSERT; on a duplicate UPDATE again; last, compare. Any other
        error ends the call. */
    method SaveByPrimaryKey(p: Plan) returns (r: SaveReply)
      requires |p.fence| == |p.target| && found == left == []
      modifies this
      ensures Traced(engine, p, found, left, r)
    {
      hide Traced, Underway;
      assert On(p, 0) by { NothingSent(engine, p); }
      var u := Exec(p, 0);
      if u.None? {
        return Failed;
      }
      if u.value.Duplicate? {
        return Conflict;
      }
      if u.value.rows > 0 {
        return Saved;
      }
      var i := Exec(p, 1);
      if i.None? {
        return Failed;
      }
      if i.value.Affected? {
        return Saved;
      }
      u := Exec(p, 2);
      if u.None? {
        return Failed;
      }
      if u.value.Duplicate? {
        return Conflict;
      }
      if u.value.rows > 0 {
        return Saved;
      }
      var m := Matches(p);
      return if m.None? then Failed else if m.value then Saved else Conflict;
    }
  }

  lemma NothingSent(e: Engine, p: Plan)
    requires |p.fence| == |p.target|
    ensures Underway(e, p, [], [])
  {
  }

  /** One more statement: it leads on, or it ends the call. */
  lemma Extend(e: Engine, p: Plan, found: seq<Table>, left: seq<Table>, t: Table, t': Table)
    requires |p.fence| == |p.target| && Underway(e, p, found, left)
    ensures var k := |found|;
      var (after, next) := Statement(e, p, k, t);
      && (t' == after && next == Go && k < 3 ==> Underway(e, p, found + [t], left + [t']))
      && (t' == after && next.Done? ==> Traced(e, p, found + [t], left + [t'], next.reply))
      && (t' == after || t' == t ==> Traced(e, p, found + [t], left + [t'], Failed))
  {
    hide Statement;
    assert (found + [t])[..|found|] == found && (left + [t'])[..|left|] == left;
  }

  /** Whatever others do in between: success means the row was the message at the end of some statement
      of the call; no statement changes a row under another key; a conflict is only reported by a call
      that wrote nothing; and a failed call wrote at most in its last statement. */
  lemma SuccessMeansStored(e: Engine, p: Plan, found: seq<Table>, left: seq<Table>, r: SaveReply)
    requires WholeRow(p) && Faithful(e, p) && Traced(e, p, found, left, r)
    ensures forall i :: 0 <= i < |left| ==> OnlyOwnRow(p, found[i], left[i])
    ensures r.Saved? ==> exists i :: 0 <= i < |left| && IsTarget(e, p, left[i])
    ensures r.Conflict? ==> found == left
    ensures found[..|found| - 1] == left[..|found| - 1]
  {
    hide Statement, OnlyOwnRow, IsTarget;
    var n := |found| - 1;
    forall i | 0 <= i < n ensures found[i] == left[i] && OnlyOwnRow(p, found[i], left[i]) {
      assert found[..n][i] == found[i] && left[..n][i] == left[i];
      StatementEffect(e, p, i, found[i]);
      OnlyOwnRowOfItself(p, found[i]);
    }
    StatementEffect(e, p, n, found[n]);
    OnlyOwnRowOfItself(p, found[n]);
    assert r.Saved? ==> IsTarget(e, p, left[n]);
  }

  lemma StatementEffect(e: Engine, p: Plan, k: nat, t: Table)
    requires WholeRow(p) && Faithful(e, p)
    ensures var (t', next) := Statement(e, p, k, t);
      && OnlyOwnRow(p, t, t')
      && (next == Done(Saved) ==> IsTarget(e, p, t'))
      && (next == Go || next == Done(Conflict) ==> t' == t)
      && next != Done(Failed)
  {
    UpdateEffect(e, p, t);
    InsertEffect(e, p, t);
    FaithfulMatch(e, p, t);
  }

  /** A conflict is reported for a reason: some statement found the wanted row in conflict with another
      one, or another writer deleted the row after the INSERT had met it, or changed it between the
      retried UPDATE and the comparison. */
  lemma ConflictMeans(e: Engine, p: Plan, found: seq<Table>, left: seq<Table>)
    requires WholeRow(p) && Faithful(e, p) && Traced(e, p, found, left, Conflict)
    ensures
      || (exists i :: 0 <= i < |found| && FoundClash(e, p, found[i]))
      || (|found| == 4 && p.key in found[1] && p.key !in found[2])
      || (|found| == 4 && p.key in found[2] && (p.key !in found[3] || found[3][p.key] != found[2][p.key]))
  {
    hide AlreadyStored, Clashes, Updated, Fresh, RowMatches, Admits;
    var n := |found| - 1;
    assert forall i :: 0 <= i < n ==> found[..n][i] == found[i] && left[..n][i] == left[i];
    assert forall i :: 0 <= i < n ==> Statement(e, p, i, found[i]) == (left[i], Go);
    UpdateEffect(e, p, found[n]);
    if n == 3 {
      UpdateEffect(e, p, found[2]);
      InsertEffect(e, p, found[1]);
      FaithfulMatch(e, p, found[3]);
      assert p.key !in found[1] ==> FoundClash(e, p, found[1]);
    } else {
      assert FoundClash(e, p, found[n]);
    }
  }

  /** A lost race to insert is no conflict: if the retried UPDATE finds the row and nobody changes the
      table after it, the save succeeds unless another row holds the unique value. */
  lemma RetryResolvesTheRace(e: Engine, p: Plan, found: seq<Table>, left: seq<Table>, r: SaveReply)
    requires WholeRow(p) && Faithful(e, p) && Traced(e, p, found, left, r) && r != Failed
    requires |found| >= 3 && p.key in found[2] && (|found| == 4 ==> found[3] == left[2])
    ensures r == if Clashes(e, found[2], p.key, Updated(e, p, found[2][p.key])) && !AlreadyStored(e, p, found[2][p.key])
                 then Conflict else Saved
    ensures r == Saved ==> IsTarget(e, p, left[|left| - 1])
  {
    hide Clashes, RowMatches, Admits;
    assert |found| == 4 ==> found[..3][2] == found[2] && left[..3][2] == left[2];
    assert |found| == 4 ==> Statement(e, p, 2, found[2]) == (left[2], Go);
    UpdateEffect(e, p, found[2]);
    FaithfulMatch(e, p, left[2]);
    AdmitsMeaning(p, found[2][p.key]);
  }

  /** How many statements an undisturbed save sends: one to change the row, or to meet it unchanged where
      matched rows count; two to insert it; one for a conflict of the present row; four otherwise. */
  lemma UndisturbedCounts(e: Engine, p: Plan, found: seq<Table>, left: seq<Table>, r: SaveReply)
    requires WholeRow(p) && Traced(e, p, found, left, r) && r != Failed
    requires forall i :: 0 <= i < |found| - 1 ==> found[i + 1] == left[i]
    ensures var t := found[0];
      |found| == if p.key in t then (if AlreadyStored(e, p, t[p.key]) && !e.clientFoundRows then 4 else 1)
                 else if FoundClash(e, p, t) then 4 else 2
  {
    hide AlreadyStored, Clashes, Updated, Fresh, RowMatches, Admits;
    var n := |found| - 1;
    assert forall i :: 0 <= i < n ==> found[..n][i] == found[i] && left[..n][i] == left[i];
    assert forall i :: 0 <= i < n ==> Statement(e, p, i, found[i]) == (left[i], Go);
    if p.key in found[0] {
      AdmitsMeaning(p, found[0][p.key]);
    }
    UpdateEffect(e, p, found[0]);
    InsertEffect(e, p, found[0]);
  }

  lemma OnlyOwnRowOfItself(p: Plan, t: Table)
    ensures OnlyOwnRow(p, t, t)
  {
  }

  // ---------------------------------------------------------------- undisturbed saves

  /** The same statements from number k on, all answered, on a table nobody else changes. */
  function Undisturbed(e: Engine, p: Plan, k: nat, t: Table): (Table, SaveReply)
    requires |p.fence| == |p.target| && k <= 3
    decreases 3 - k
  {
    var (t', next) := Statement(e, p, k, t);
    match next
    case Done(r) => (t', r)
    case Go => if k < 3 then Undisturbed(e, p, k + 1, t') else (t', Failed)
  }

  /** An answered call nobody else interferes with is that. */
  lemma {:induction false} UndisturbedIsTraced(e: Engine, p: Plan, found: seq<Table>, left: seq<Table>, r: SaveReply, k: nat)
    requires |p.fence| == |p.target| && Traced(e, p, found, left, r) && r != Failed && k < |found|
    requires forall i :: 0 <= i < |found| - 1 ==> found[i + 1] == left[i]
    ensures Undisturbed(e, p, k, found[k]) == (left[|left| - 1], r)
    decreases |found| - k
  {
    hide Statement;
    var n := |found| - 1;
    if k < n {
      assert found[..n][k] == found[k] && left[..n][k] == left[k];
      UndisturbedIsTraced(e, p, found, left, r, k + 1);
    }
  }

  /** The table obeys its alternate unique key. */
  ghost predicate UniqueHolds(e: Engine, t: Table) {
    forall k :: k in t ==> !Clashes(e, t, k, t[k])
  }

  /** Without interference a duplicate-key error is reported exactly when another row holds the
      alternate unique value of the wanted row; then nothing changed, and otherwise the wanted row is
      there and the unique key still holds. */
  lemma ConflictIsUniqueClash(e: Engine, p: Plan, t: Table)
    requires WholeRow(p) && Faithful(e, p) && UniqueHolds(e, t)
    ensures var (t', r) := Undisturbed(e, p, 0, t);
      && r != Failed
      && (r.Conflict? <==> Clashes(e, t, p.key, Wanted(e, p, t)))
      && (r.Conflict? ==> t' == t)
      && (r.Saved? ==> IsTarget(e, p, t') && UniqueHolds(e, t'))
      && OnlyOwnRow(p, t, t')
  {
    UpdateEffect(e, p, t);
    InsertEffect(e, p, t);
    FaithfulMatch(e, p, t);
    if p.key in t && AlreadyStored(e, p, t[p.key]) {
      SameCells(e, p, t[p.key]);
      assert forall k :: k in t ==> (SameUnique(e, Updated(e, p, t[p.key]), t[k]) <==> SameUnique(e, t[p.key], t[k]));
    }
    var (t', r) := Undisturbed(e, p, 0, t);
    if t' != t {
      WriteKeepsUnique(e, t, p.key, Wanted(e, p, t));
    }
  }

  lemma SameCells(e: Engine, p: Plan, row: Row)
    requires AlreadyStored(e, p, row)
    ensures forall c :: Cell(Updated(e, p, row), c) == Cell(row, c)
  {
  }

  lemma WriteKeepsUnique(e: Engine, t: Table, key: Key, row: Row)
    requires UniqueHolds(e, t) && !Clashes(e, t, key, row)
    ensures UniqueHolds(e, t[key := row])
  {
    var t' := t[key := row];
    forall k, j | k in t' && j in t' && j != k ensures !SameUnique(e, t'[k], t'[j]) {
      if j == key {
        UniqueIsSymmetric(e, t[k], row);
      }
    }
  }

  lemma UniqueIsSymmetric(e: Engine, a: Row, b: Row)
    ensures SameUnique(e, a, b) ==> SameUnique(e, b, a)
  {
  }

  // ---------------------------------------------------------------- argument positions

  /** The arguments of the save UPDATE: all other columns in field order, then the primary key. */
  function UpdateArgs(fields: seq<Column>, primaryKey: seq<Column>, m: Row): seq<Value> {
    Bound(Rest(fields, primaryKey), m) + Bound(primaryKey, m)
  }

  /** Values of these columns, one by one. */
  function Bound(columns: seq<Column>, m: Row): (args: seq<Value>)
    ensures |args| == |columns|
    ensures forall i :: 0 <= i < |columns| ==> args[i] == Cell(m, columns[i])
  {
    seq(|columns|, i requires 0 <= i < |columns| => Cell(m, columns[i]))
  }

  function Rest(fields: seq<Column>, primaryKey: seq<Column>): seq<Column> {
    if fields == [] then []
    else
      var before := Rest(fields[..|fields| - 1], primaryKey);
      var last := fields[|fields| - 1];
      if last in primaryKey then before else before + [last]
  }

  lemma {:induction false} RestMembers(fields: seq<Column>, primaryKey: seq<Column>)
    ensures forall c :: c in Rest(fields, primaryKey) <==> c in fields && c !in primaryKey
  {
    if fields != [] {
      var n := |fields| - 1;
      RestMembers(fields[..n], primaryKey);
      assert fields == fields[..n] + [fields[n]];
    }
  }

  /** A comparison query: conjunct i compares columns[i] with args[i]. */
  datatype MatchQuery = MatchQuery(columns: seq<Column>, args: seq<Value>) | BadArgumentCount

  /** The final comparison reorders the executed UPDATE's own arguments. */
  method SaveCurrentRowMatch(fields: seq<Column>, primaryKey: seq<Column>, args: seq<Value>) returns (q: MatchQuery)
    ensures q.BadArgumentCount? <==> |args| != |Rest(fields, primaryKey)| + |primaryKey|
    ensures q.MatchQuery? ==>
      && q.columns == primaryKey + Rest(fields, primaryKey)
      && q.args == args[|Rest(fields, primaryKey)|..] + args[..|Rest(fields, primaryKey)|]
  {
    hide Rest;
    var others := 0;
    RestOfNone(fields, primaryKey);
    for i := 0 to |fields|
      invariant others == |Rest(fields[..i], primaryKey)|
    {
      RestGrows(fields, primaryKey, i);
      if fields[i] !in primaryKey {
        others := others + 1;
      }
    }
    assert fields[..|fields|] == fields;
    if |args| != others + |primaryKey| {
      return BadArgumentCount;
    }
    var columns: seq<Column> := [];
    var bound: seq<Value> := [];
    for i := 0 to |primaryKey|
      invariant columns == primaryKey[..i]
      invariant bound == args[others..others + i]
    {
      columns := columns + [primaryKey[i]];
      bound := bound + [args[others + i]];
    }
    assert columns == primaryKey && bound == args[others..];
    var next := 0;
    for i := 0 to |fields|
      invariant next == |Rest(fields[..i], primaryKey)| <= others
      invariant columns == primaryKey + Rest(fields[..i], primaryKey)
      invariant bound == args[others..] + args[..next]
    {
      RestGrows(fields, primaryKey, i);
      if fields[i] !in primaryKey {
        columns := columns + [fields[i]];
        bound := bound + [args[next]];
        next := next + 1;
      }
    }
    q := MatchQuery(columns, bound);
  }

  lemma RestOfNone(fields: seq<Column>, primaryKey: seq<Column>)
    ensures Rest(fields[..0], primaryKey) == []
  {
  }

  lemma RestGrows(fields: seq<Column>, primaryKey: seq<Column>, i: nat)
    requires i < |fields|
    ensures |Rest(fields[..i + 1], primaryKey)| <= |Rest(fields, primaryKey)|
    ensures Rest(fields[..i + 1], primaryKey) ==
      if fields[i] in primaryKey then Rest(fields[..i], primaryKey) else Rest(fields[..i], primaryKey) + [fields[i]]
    decreases |fields| - i
  {
    assert fields[..i + 1][..i] == fields[..i];
    if i + 1 == |fields| {
      assert fields[..i + 1] == fields;
    } else {
      RestGrows(fields, primaryKey, i + 1);
      assert fields[..i + 2][..i + 1] == fields[..i + 1];
    }
  }

  /** Applied to the UPDATE of a message, every conjunct compares its column with that message's own
      value of it, and every declared column is compared. */
  lemma MatchComparesTheMessage(fields: seq<Column>, primaryKey: seq<Column>, m: Row, q: MatchQuery)
    requires var args := UpdateArgs(fields, primaryKey, m);
      && q == MatchQuery(primaryKey + Rest(fields, primaryKey),
                         args[|Rest(fields, primaryKey)|..] + args[..|Rest(fields, primaryKey)|])
    ensures |q.columns| == |q.args|
    ensures forall i :: 0 <= i < |q.columns| ==> q.args[i] == Cell(m, q.columns[i])
    ensures forall c :: c in fields || c in primaryKey <==> c in q.columns
  {
    RestMembers(fields, primaryKey);
    var rest := Rest(fields, primaryKey);
    var args := UpdateArgs(fields, primaryKey, m);
    assert args[|rest|..] == Bound(primaryKey, m) && args[..|rest|] == Bound(rest, m);
  }
}
