/** What the two-round protocol promises: fences that never go back, when two rounds are enough, what a
    race means, and what an undisturbed call does. */
module SaveGuarantees {
  import opened Wrappers
  import opened Fence
  import opened SaveStatements
  import opened ConditionalSave
  import opened SaveRuns

  // ---------------------------------------------------------------- fences never go back

  ghost predicate AllFenced(fence: seq<Column>, t: Table) {
    forall k :: k in t ==> HasFence(t[k], fence)
  }

  /** No row disappears and no row's fence decreases. */
  ghost predicate FencesGrow(fence: seq<Column>, t: Table, t': Table)
    requires AllFenced(fence, t) && AllFenced(fence, t')
  {
    forall k :: k in t ==> k in t' && AtMost(FenceOf(t[k], fence), FenceOf(t'[k], fence))
  }

  /** A writer of this table that respects the fence: it compares these very columns, or it preserves
      all of them. Either way a fresh row gets numbers in them. */
  ghost predicate Respects(fence: seq<Column>, p: Plan) {
    || p.fence == fence
    || (forall c :: c in fence ==> c !in p.set_ && c in p.insert && p.insert[c].UInt?)
  }

  /** A statement writes at most its own row: a fresh one, or an admitted overwrite. */
  lemma StepWrites(e: Engine, p: Plan, pc: Pc, t: Table)
    requires |p.fence| == |p.target| && !pc.Finished?
    ensures var t' := Step(e, p, pc, t).0;
      || t' == t
      || (p.key !in t && t' == t[p.key := Fresh(e, p)])
      || (p.key in t && Admits(p, t[p.key]) && t' == t[p.key := Updated(e, p, t[p.key])])
  {
  }

  lemma SameTableGrows(fence: seq<Column>, t: Table)
    requires AllFenced(fence, t)
    ensures FencesGrow(fence, t, t)
  {
    forall k | k in t ensures AtMost(FenceOf(t[k], fence), FenceOf(t[k], fence)) {
      CompareEqual(FenceOf(t[k], fence));
    }
  }

  lemma RespectfulStep(e: Engine, fence: seq<Column>, p: Plan, pc: Pc, t: Table)
    requires ValidPlan(p) && ExactFence(e, fence) && Respects(fence, p)
    requires !pc.Finished? && AllFenced(fence, t)
    ensures AllFenced(fence, Step(e, p, pc, t).0)
    ensures FencesGrow(fence, t, Step(e, p, pc, t).0)
  {
    hide Step, Respects, Updated, Fresh, Admits, Compare, HasFence, FenceOf, ExactFence;
    SameTableGrows(fence, t);
    StepWrites(e, p, pc, t);
    RespectfulWrite(e, fence, p, if p.key in t then t[p.key] else map[]);
  }

  /** The row such a writer leaves has a fence, and over an admitted row not a smaller one. */
  lemma RespectfulWrite(e: Engine, fence: seq<Column>, p: Plan, row: Row)
    requires ValidPlan(p) && ExactFence(e, fence) && Respects(fence, p)
    ensures HasFence(Fresh(e, p), fence)
    ensures HasFence(row, fence) && Admits(p, row) ==>
      HasFence(Updated(e, p, row), fence) && AtMost(FenceOf(row, fence), FenceOf(Updated(e, p, row), fence))
  {
    if p.fence == fence {
      WrittenFence(e, p, row);
      AdmitsMeaning(p, row);
      if !p.Fenced() {
        CompareEqual([]);
      }
    } else {
      PreservedFence(e, fence, p, row);
      if HasFence(row, fence) {
        CompareEqual(FenceOf(row, fence));
      }
    }
  }

  lemma PreservedFence(e: Engine, fence: seq<Column>, p: Plan, row: Row)
    requires ExactFence(e, fence)
    requires forall c :: c in fence ==> c !in p.set_ && c in p.insert && p.insert[c].UInt?
    ensures HasFence(Fresh(e, p), fence)
    ensures HasFence(row, fence) ==> HasFence(Updated(e, p, row), fence) && FenceOf(Updated(e, p, row), fence) == FenceOf(row, fence)
  {
    forall i | 0 <= i < |fence|
      ensures Cell(Fresh(e, p), fence[i]).UInt?
      ensures Cell(Updated(e, p, row), fence[i]) == Cell(row, fence[i])
    {
      assert fence[i] in fence;
      var n := p.insert[fence[i]].n;
      assert e.store(fence[i], UInt(n)) == UInt(n);
    }
  }

  /** Every writer of the run respects the fence and nobody deletes a row. */
  ghost predicate Disciplined(e: Engine, ws: seq<World>, evs: seq<Event>, fence: seq<Column>) {
    && Run(e, ws, evs) && ExactFence(e, fence)
    && AllFenced(fence, ws[0].table)
    && (forall i :: 0 <= i < |evs| && evs[i].Begin? ==> Respects(fence, evs[i].plan))
    && (forall i :: 0 <= i < |evs| && evs[i].Outside? ==>
          && AllFenced(fence, evs[i].table)
          && (AllFenced(fence, ws[i].table) ==> FencesGrow(fence, ws[i].table, evs[i].table)))
  }

  lemma {:induction false} DisciplinedWorld(e: Engine, ws: seq<World>, evs: seq<Event>, fence: seq<Column>, k: nat)
    requires Disciplined(e, ws, evs, fence) && k <= |evs|
    ensures AllFenced(fence, ws[k].table)
    ensures forall id :: id in ws[k].calls ==> ValidPlan(ws[k].calls[id].plan) && Respects(fence, ws[k].calls[id].plan)
    ensures k > 0 ==> AllFenced(fence, ws[k - 1].table) && FencesGrow(fence, ws[k - 1].table, ws[k].table)
  {
    if k > 0 {
      DisciplinedWorld(e, ws, evs, fence, k - 1);
      assert Follows(e, ws, evs, k - 1);
      var w, ev := ws[k - 1], evs[k - 1];
      if ev.Advance? || ev.Break? {
        RespectfulStep(e, fence, w.calls[ev.id].plan, w.calls[ev.id].pc, w.table);
      }
      forall r | r in w.table ensures AtMost(FenceOf(w.table[r], fence), FenceOf(w.table[r], fence)) {
        CompareEqual(FenceOf(w.table[r], fence));
      }
    }
  }

  /** Over any stretch of a disciplined run, rows stay and their fences only grow. */
  lemma {:induction false} FencesNeverDecrease(e: Engine, ws: seq<World>, evs: seq<Event>, fence: seq<Column>, i: nat, k: nat, key: Key)
    requires Disciplined(e, ws, evs, fence) && i <= k <= |evs|
    requires key in ws[i].table
    ensures AllFenced(fence, ws[i].table) && AllFenced(fence, ws[k].table)
    ensures key in ws[k].table && AtMost(FenceOf(ws[i].table[key], fence), FenceOf(ws[k].table[key], fence))
  {
    DisciplinedWorld(e, ws, evs, fence, i);
    if i == k {
      CompareEqual(FenceOf(ws[i].table[key], fence));
    } else {
      FencesNeverDecrease(e, ws, evs, fence, i, k - 1, key);
      DisciplinedWorld(e, ws, evs, fence, k);
      AtMostTransitive(FenceOf(ws[i].table[key], fence), FenceOf(ws[k - 1].table[key], fence), FenceOf(ws[k].table[key], fence));
    }
  }

  // ---------------------------------------------------------------- two rounds are enough

  /** Where a strict call can stand: in round two its row exists, and an UPDATE that then changed
      nothing means the stored fence has already caught up. */
  ghost predicate StrictPoint(p: Plan, pc: Pc, t: Table)
    requires AllFenced(p.fence, t)
  {
    && OnTrack(pc)
    && (!pc.Finished? && pc.v.round == 1 && (pc.AtUpdate? || pc.AtRead?) ==> !pc.v.duplicate)
    && (!pc.Finished? && pc.v.round == MAX_ROUNDS ==> p.key in t && (pc.AtUpdate? || pc.AtRead?))
    && (pc.AtRead? && pc.v.round == MAX_ROUNDS ==> AtMost(p.target, FenceOf(t[p.key], p.fence)))
    && !pc.AtCompare?
    && (pc.Finished? ==> !pc.reply.Race? && !pc.reply.Mismatch? && !pc.reply.Disappeared?)
  }

  lemma StrictStep(e: Engine, p: Plan, pc: Pc, t: Table)
    requires ValidPlan(p) && ExactFence(e, p.fence) && p.Strict()
    requires !pc.Finished? && AllFenced(p.fence, t) && StrictPoint(p, pc, t)
    ensures AllFenced(p.fence, Step(e, p, pc, t).0)
    ensures StrictPoint(p, Step(e, p, pc, t).1, Step(e, p, pc, t).0)
  {
    hide AlreadyStored, Updated, Fresh, Clashes, RowMatches, Compare, HasFence, FenceOf, Admits;
    RespectfulStep(e, p.fence, p, pc, t);
    StepBurnsFuel(e, p, pc, t);
    StepReads(p, t);
    if p.key in t {
      StrictRow(e, p, t[p.key]);
    }
  }

  /** A strict condition that does not hold on a row means the row has caught up. */
  lemma StrictRow(e: Engine, p: Plan, row: Row)
    requires ValidPlan(p) && ExactFence(e, p.fence) && p.Strict() && HasFence(row, p.fence)
    ensures Admits(p, row) <==> p.Holds(FenceOf(row, p.fence))
    ensures !p.Holds(FenceOf(row, p.fence)) <==> AtMost(p.target, FenceOf(row, p.fence))
    ensures AlreadyStored(e, p, row) ==> FenceOf(row, p.fence) == p.target && !p.Holds(FenceOf(row, p.fence))
    ensures FenceOf(row, p.fence) == p.target ==> !p.Holds(FenceOf(row, p.fence))
  {
    AdmitsMeaning(p, row);
    AtMostTotal(p.target, FenceOf(row, p.fence));
    CompareEqual(p.target);
    if AlreadyStored(e, p, row) {
      StoredFence(e, p, row);
    }
  }

  lemma StepReads(p: Plan, t: Table)
    requires AllFenced(p.fence, t)
    ensures ReadState(p, t) == Seen(if p.key in t then RowState(true, FenceOf(t[p.key], p.fence)) else RowState(false, []))
  {
  }

  lemma StrictPointSurvives(p: Plan, pc: Pc, t: Table, t': Table)
    requires AllFenced(p.fence, t) && AllFenced(p.fence, t') && FencesGrow(p.fence, t, t')
    requires StrictPoint(p, pc, t)
    ensures StrictPoint(p, pc, t')
  {
    if pc.AtRead? && pc.v.round == MAX_ROUNDS {
      AtMostTransitive(p.target, FenceOf(t[p.key], p.fence), FenceOf(t'[p.key], p.fence));
    }
  }

  lemma {:induction false} StrictInvariant(e: Engine, ws: seq<World>, evs: seq<Event>, k: nat, id: nat)
    requires k <= |evs| && |ws| == |evs| + 1 && id in ws[k].calls
    requires Disciplined(e, ws, evs, ws[k].calls[id].plan.fence)
    requires ws[k].calls[id].plan.Strict()
    ensures AllFenced(ws[k].calls[id].plan.fence, ws[k].table)
    ensures StrictPoint(ws[k].calls[id].plan, ws[k].calls[id].pc, ws[k].table)
  {
    var p := ws[k].calls[id].plan;
    DisciplinedWorld(e, ws, evs, p.fence, k);
    assert k > 0;
    DisciplinedWorld(e, ws, evs, p.fence, k - 1);
    CallMoves(e, ws, evs, k - 1, id);
    if id in ws[k - 1].calls {
      var pc, t := ws[k - 1].calls[id].pc, ws[k - 1].table;
      StrictInvariant(e, ws, evs, k - 1, id);
      if evs[k - 1] == Advance(id) {
        StrictStep(e, p, pc, t);
      } else if ws[k].calls[id].pc == pc {
        StrictPointSurvives(p, pc, t, ws[k].table);
      }
    }
  }

  /** What one event does to one call. */
  lemma CallMoves(e: Engine, ws: seq<World>, evs: seq<Event>, i: nat, id: nat)
    requires Run(e, ws, evs) && i < |evs| && id in ws[i + 1].calls
    ensures id !in ws[i].calls ==> ws[i + 1].calls[id].pc == START
    ensures id in ws[i].calls ==>
      var c := ws[i].calls[id];
      && ws[i + 1].calls[id].plan == c.plan
      && (evs[i] == Advance(id) ==>
          && !c.pc.Finished? && |c.plan.fence| == |c.plan.target|
          && (ws[i + 1].table, ws[i + 1].calls[id].pc) == Step(e, c.plan, c.pc, ws[i].table))
      && (evs[i] != Advance(id) ==> ws[i + 1].calls[id].pc == c.pc || ws[i + 1].calls[id].pc == Finished(Failed))
      && (evs[i].Break? && evs[i].id == id ==> ws[i + 1].calls[id].pc == Finished(Failed))
  {
    assert Follows(e, ws, evs, i);
  }

  /** If every writer keeps the fence from going back and nobody deletes, a strict call never ends in
      a race, a mismatch or a row that disappeared, however the calls interleave. */
  lemma TwoRoundsSuffice(e: Engine, ws: seq<World>, evs: seq<Event>, k: nat, id: nat)
    requires k <= |evs| && |ws| == |evs| + 1 && id in ws[k].calls
    requires Disciplined(e, ws, evs, ws[k].calls[id].plan.fence)
    requires ws[k].calls[id].plan.Strict()
    ensures ws[k].calls[id].pc.Finished? ==>
      var reply := ws[k].calls[id].pc.reply;
      !reply.Race? && !reply.Mismatch? && !reply.Disappeared? && !reply.SchemaDrift?
  {
    StrictInvariant(e, ws, evs, k, id);
    NoDriftWhenFenced(e, ws, evs, k, id);
  }

  lemma {:induction false} NoDriftWhenFenced(e: Engine, ws: seq<World>, evs: seq<Event>, k: nat, id: nat)
    requires k <= |evs| && |ws| == |evs| + 1 && id in ws[k].calls
    requires Disciplined(e, ws, evs, ws[k].calls[id].plan.fence)
    ensures ws[k].calls[id].pc != Finished(SchemaDrift)
  {
    hide Step, ValidPlan, Respects, AllFenced, FencesGrow, Follows;
    var p := ws[k].calls[id].plan;
    assert k > 0;
    DisciplinedWorld(e, ws, evs, p.fence, k - 1);
    CallMoves(e, ws, evs, k - 1, id);
    if id in ws[k - 1].calls {
      NoDriftWhenFenced(e, ws, evs, k - 1, id);
      if evs[k - 1] == Advance(id) {
        StepFindsNoDrift(e, p, ws[k - 1].calls[id].pc, ws[k - 1].table);
      }
    }
  }

  lemma StepFindsNoDrift(e: Engine, p: Plan, pc: Pc, t: Table)
    requires |p.fence| == |p.target| && !pc.Finished? && AllFenced(p.fence, t)
    ensures Step(e, p, pc, t).1 != Finished(SchemaDrift)
  {
    hide ExecUpdate, ExecInsert, RowMatches;
  }

  // ---------------------------------------------------------------- undisturbed calls

  function RowAt(t: Table, key: Key): Option<Row> {
    if key in t then Some(t[key]) else None
  }

  /** Where a call can stand while nobody else touches its row. */
  ghost predicate QuietPoint(e: Engine, p: Plan, pc: Pc, row: Option<Row>)
    requires |p.fence| == |p.target|
  {
    match pc
    case AtUpdate(v) => pc == START
    case AtRead(v) =>
      v == START.v && (row.Some? ==> !Admits(p, row.value) || AlreadyStored(e, p, row.value))
    case AtInsert(v) => row.None? && v == START.v
    case AtReread(v) => row.None?
    case AtCompare(v, state) => v.compared.None? && row.Some? && AlreadyStored(e, p, row.value)
    case Finished(reply) => !reply.Race? && !reply.Mismatch? && !reply.Disappeared?
  }

  lemma QuietStep(e: Engine, p: Plan, pc: Pc, t: Table)
    requires ValidPlan(p) && ExactFence(e, p.fence) && Faithful(e, p)
    requires !pc.Finished? && QuietPoint(e, p, pc, RowAt(t, p.key))
    ensures var (t', pc') := Step(e, p, pc, t);
      QuietPoint(e, p, pc', RowAt(t', p.key)) && (pc'.Finished? || RowAt(t', p.key) == RowAt(t, p.key))
  {
    FaithfulMatch(e, p, t);
    if p.key in t {
      AdmitsMeaning(p, t[p.key]);
      if AlreadyStored(e, p, t[p.key]) {
        StoredFence(e, p, t[p.key]);
      }
    }
  }

  /** Events i to k - 1 of other writers leave this row as it is. */
  ghost predicate RowUndisturbed(ws: seq<World>, evs: seq<Event>, i: nat, k: nat, id: nat, key: Key)
    requires i <= k <= |evs| && |ws| == |evs| + 1
  {
    forall j {:trigger evs[j]} :: i <= j < k && evs[j] != Advance(id) && !(evs[j].Break? && evs[j].id == id) ==>
      RowAt(ws[j + 1].table, key) == RowAt(ws[j].table, key)
  }

  lemma {:induction false} QuietInvariant(e: Engine, ws: seq<World>, evs: seq<Event>, b: nat, k: nat, id: nat)
    requires Run(e, ws, evs) && b < k <= |evs| && evs[b].Begin? && evs[b].id == id
    requires ExactFence(e, evs[b].plan.fence) && Faithful(e, evs[b].plan)
    requires RowUndisturbed(ws, evs, b, k, id, evs[b].plan.key)
    ensures id in ws[k].calls && ws[k].calls[id].plan == evs[b].plan && ValidPlan(evs[b].plan)
    ensures ws[k].calls[id].pc.Finished? ==> QuietPoint(e, evs[b].plan, ws[k].calls[id].pc, None)
    ensures !ws[k].calls[id].pc.Finished? ==>
      QuietPoint(e, evs[b].plan, ws[k].calls[id].pc, RowAt(ws[k].table, evs[b].plan.key))
  {
    hide Step, ValidPlan, ExactFence, Faithful, QuietPoint, Follows;
    BeginsQuietly(e, ws, evs, b, id);
    CallsPersist(e, ws, evs, b + 1, k, id);
    if b + 1 < k {
      QuietInvariant(e, ws, evs, b, k - 1, id);
      CallMoves(e, ws, evs, k - 1, id);
      var ev := evs[k - 1];
      QuietEnds(e, evs[b].plan, RowAt(ws[k].table, evs[b].plan.key));
      if ev == Advance(id) {
        QuietStep(e, evs[b].plan, ws[k - 1].calls[id].pc, ws[k - 1].table);
      } else if !(ev.Break? && ev.id == id) {
        assert RowAt(ws[k - 1 + 1].table, evs[b].plan.key) == RowAt(ws[k - 1].table, evs[b].plan.key);
      }
    }
  }

  lemma BeginsQuietly(e: Engine, ws: seq<World>, evs: seq<Event>, b: nat, id: nat)
    requires Run(e, ws, evs) && b < |evs| && evs[b].Begin? && evs[b].id == id
    ensures id in ws[b + 1].calls && ws[b + 1].calls[id].plan == evs[b].plan && ValidPlan(evs[b].plan)
    ensures !ws[b + 1].calls[id].pc.Finished?
    ensures QuietPoint(e, evs[b].plan, ws[b + 1].calls[id].pc, RowAt(ws[b + 1].table, evs[b].plan.key))
  {
    assert Follows(e, ws, evs, b);
  }

  lemma QuietEnds(e: Engine, p: Plan, row: Option<Row>)
    requires |p.fence| == |p.target|
    ensures QuietPoint(e, p, Finished(Failed), None)
    ensures forall reply :: QuietPoint(e, p, Finished(reply), row) ==> QuietPoint(e, p, Finished(reply), None)
  {
  }

  /** In any environment, deletes included: a race, a mismatch or a disappeared row means that some
      other writer changed this very row while the call was under way. */
  lemma RaceMeansInterference(e: Engine, ws: seq<World>, evs: seq<Event>, b: nat, k: nat, id: nat) returns (j: nat)
    requires Run(e, ws, evs) && b < k <= |evs| && evs[b].Begin? && evs[b].id == id
    requires ExactFence(e, evs[b].plan.fence) && Faithful(e, evs[b].plan)
    requires id in ws[k].calls && ws[k].calls[id].pc.Finished?
    requires var r := ws[k].calls[id].pc.reply; r.Race? || r.Mismatch? || r.Disappeared?
    ensures b < j < k && evs[j] != Advance(id) && !(evs[j].Break? && evs[j].id == id)
    ensures RowAt(ws[j + 1].table, evs[b].plan.key) != RowAt(ws[j].table, evs[b].plan.key)
  {
    assert Follows(e, ws, evs, b);
    if RowUndisturbed(ws, evs, b, k, id, evs[b].plan.key) {
      QuietInvariant(e, ws, evs, b, k, id);
      assert false;
    }
    j :| b <= j < k && evs[j] != Advance(id) && !(evs[j].Break? && evs[j].id == id)
         && RowAt(ws[j + 1].table, evs[b].plan.key) != RowAt(ws[j].table, evs[b].plan.key);
  }

  /** A call with the table to itself: the table it leaves, its reply, and the statements it sent. */
  function Alone(e: Engine, p: Plan, pc: Pc, t: Table): (Table, Reply, nat)
    requires |p.fence| == |p.target| && OnTrack(pc)
    decreases Fuel(pc)
  {
    if pc.Finished? then (t, pc.reply, 0)
    else
      StepBurnsFuel(e, p, pc, t);
      var (t', pc') := Step(e, p, pc, t);
      var (end, reply, n) := Alone(e, p, pc', t');
      (end, reply, n + 1)
  }

  /** The decision table of an undisturbed call, with its statement counts: one statement to update,
      two to reject, three to insert or to find the row already there. A mismatch arises exactly when
      the stored row equals the target but the row comparison denies it. */
  function Verdict(e: Engine, p: Plan, t: Table): (Table, Reply, nat)
    requires |p.fence| == |p.target|
  {
    if p.key !in t then
      if Clashes(e, t, p.key, Fresh(e, p)) then (t, DuplicateKey, 4)
      else (t[p.key := Fresh(e, p)], SaveInserted, 3)
    else
      var row := t[p.key];
      if !Admitted(p, row) then
        if HasFence(row, p.fence) then (t, SaveRejected(FenceOf(row, p.fence)), 2) else (t, SchemaDrift, 2)
      else if !AlreadyStored(e, p, row) then
        if Clashes(e, t, p.key, Updated(e, p, row)) then (t, DuplicateKey, 1)
        else (t[p.key := Updated(e, p, row)], SaveUpdated, 1)
      else if e.clientFoundRows then (t, SaveUpdated, 1)
      else if RowMatches(e, p, t) then (t, SaveUnchanged(p.target), 3)
      else (t, Mismatch(p.target), 6)
  }

  lemma AloneGivesVerdict(e: Engine, p: Plan, t: Table)
    requires ValidPlan(p) && ExactFence(e, p.fence)
    ensures Alone(e, p, START, t) == Verdict(e, p, t)
  {
    CompareEqual(p.target);
    var v := START.v;
    if p.key !in t {
      AloneWithoutRow(e, p, t);
    } else {
      var row := t[p.key];
      AdmitsMeaning(p, row);
      if !Admits(p, row) {
        assert Step(e, p, START, t) == (t, AtRead(v));
        assert Alone(e, p, AtRead(v), t) == (t, Step(e, p, AtRead(v), t).1.reply, 1);
      } else if AlreadyStored(e, p, row) && !e.clientFoundRows {
        StoredFence(e, p, row);
        AloneOnTarget(e, p, t);
      }
    }
  }

  lemma AloneWithoutRow(e: Engine, p: Plan, t: Table)
    requires |p.fence| == |p.target| && p.key !in t
    ensures Alone(e, p, START, t) ==
      if Clashes(e, t, p.key, Fresh(e, p)) then (t, DuplicateKey, 4) else (t[p.key := Fresh(e, p)], SaveInserted, 3)
  {
    hide Clashes, Fresh;
    var v := START.v;
    assert Step(e, p, START, t) == (t, AtRead(v));
    assert Step(e, p, AtRead(v), t) == (t, AtInsert(v));
    if Clashes(e, t, p.key, Fresh(e, p)) {
      var w := v.(duplicate := true);
      assert Step(e, p, AtInsert(v), t) == (t, AtReread(w));
      assert Step(e, p, AtReread(w), t) == (t, Finished(DuplicateKey));
      assert Alone(e, p, AtReread(w), t) == (t, DuplicateKey, 1);
      assert Alone(e, p, AtInsert(v), t) == (t, DuplicateKey, 2);
      assert Alone(e, p, AtRead(v), t) == (t, DuplicateKey, 3);
    } else {
      var t' := t[p.key := Fresh(e, p)];
      assert Step(e, p, AtInsert(v), t) == (t', Finished(SaveInserted));
      assert Alone(e, p, AtInsert(v), t) == (t', SaveInserted, 1);
      assert Alone(e, p, AtRead(v), t) == (t', SaveInserted, 2);
    }
  }

  lemma AloneOnTarget(e: Engine, p: Plan, t: Table)
    requires ValidPlan(p) && !e.clientFoundRows
    requires p.key in t && Admits(p, t[p.key]) && AlreadyStored(e, p, t[p.key])
    requires HasFence(t[p.key], p.fence) && FenceOf(t[p.key], p.fence) == p.target
    ensures Alone(e, p, START, t) ==
      if RowMatches(e, p, t) then (t, SaveUnchanged(p.target), 3) else (t, Mismatch(p.target), 6)
  {
    AdmitsMeaning(p, t[p.key]);
    var state := RowState(true, p.target);
    var v := START.v;
    var v1 := v.(last := p.target);
    var second := v1.(round := MAX_ROUNDS, compared := Some(state));
    assert Step(e, p, START, t) == (t, AtRead(v));
    assert Step(e, p, AtRead(v), t) == (t, AtCompare(v1, state));
    if RowMatches(e, p, t) {
      assert Alone(e, p, AtCompare(v1, state), t) == (t, SaveUnchanged(p.target), 1);
      assert Alone(e, p, AtRead(v), t) == (t, SaveUnchanged(p.target), 2);
    } else {
      assert Step(e, p, AtCompare(v1, state), t) == (t, AtUpdate(second));
      assert Step(e, p, AtUpdate(second), t) == (t, AtRead(second));
      assert Step(e, p, AtRead(second), t) == (t, AtCompare(second, state));
      assert Step(e, p, AtCompare(second, state), t) == (t, Finished(Mismatch(p.target)));
      assert Alone(e, p, AtCompare(second, state), t) == (t, Mismatch(p.target), 1);
      assert Alone(e, p, AtRead(second), t) == (t, Mismatch(p.target), 2);
      assert Alone(e, p, AtUpdate(second), t) == (t, Mismatch(p.target), 3);
      assert Alone(e, p, AtCompare(v1, state), t) == (t, Mismatch(p.target), 4);
      assert Alone(e, p, AtRead(v), t) == (t, Mismatch(p.target), 5);
    }
  }
}
