/** Strict writers racing for one row: whatever the interleaving, the newest version wins. */
module SaveConvergence {
  import opened Fence
  import opened SaveStatements
  import opened ConditionalSave
  import opened SaveRuns
  import opened SaveGuarantees

  /** Every call on this row is strict on the same fence columns, no reply on it is lost, and no other
      writer touches it. Calls on other rows are unrestricted. */
  ghost predicate Contest(e: Engine, ws: seq<World>, evs: seq<Event>, key: Key, fence: seq<Column>) {
    && Run(e, ws, evs) && ExactRun(e, evs) && ExactFence(e, fence) && |fence| > 0
    && (key in ws[0].table ==> HasFence(ws[0].table[key], fence))
    && (forall i :: 0 <= i < |evs| && evs[i].Begin? && evs[i].plan.key == key ==>
          evs[i].plan.fence == fence && !evs[i].plan.allowEqual)
    && (forall i :: 0 <= i < |evs| && evs[i].Break? && evs[i].id in ws[i].calls ==>
          ws[i].calls[evs[i].id].plan.key != key)
    && (forall i :: 0 <= i < |evs| && evs[i].Outside? ==> RowAt(evs[i].table, key) == RowAt(ws[i].table, key))
  }

  predicate Writer(w: World, key: Key, id: nat) {
    id in w.calls && w.calls[id].plan.key == key
  }

  predicate Wrote(w: World, key: Key, id: nat) {
    Writer(w, key, id) && (w.calls[id].pc == Finished(SaveInserted) || w.calls[id].pc == Finished(SaveUpdated))
  }

  predicate Done(w: World, key: Key, id: nat) {
    Writer(w, key, id) && w.calls[id].pc.Finished? && w.calls[id].pc.reply.Settled()
  }

  function Inserters(w: World, key: Key): set<nat> {
    set id | id in w.calls && Writer(w, key, id) && w.calls[id].pc == Finished(SaveInserted)
  }

  /** The row as its last writer left it, or as it was at the start. */
  ghost predicate LastWritten(e: Engine, w0: World, w: World, key: Key, fence: seq<Column>)
    requires key in w.table && HasFence(w.table[key], fence)
  {
    || (key in w0.table && w.table[key] == w0.table[key])
    || (exists id {:trigger Wrote(w, key, id)} :: Wrote(w, key, id)
          && FenceOf(w.table[key], fence) == w.calls[id].plan.target
          && AlreadyStored(e, w.calls[id].plan, w.table[key]))
  }

  ghost predicate Standing(e: Engine, w0: World, w: World, key: Key, fence: seq<Column>) {
    && (key in w0.table ==> key in w.table && HasFence(w0.table[key], fence))
    && (key in w.table ==>
        && HasFence(w.table[key], fence)
        && (key in w0.table ==> AtMost(FenceOf(w0.table[key], fence), FenceOf(w.table[key], fence)))
        && LastWritten(e, w0, w, key, fence))
    && (forall id :: Writer(w, key, id) ==>
          && ValidPlan(w.calls[id].plan) && w.calls[id].plan.fence == fence && w.calls[id].plan.Strict())
    && (forall id :: Done(w, key, id) ==>
          key in w.table && AtMost(w.calls[id].plan.target, FenceOf(w.table[key], fence)))
    && |Inserters(w, key)| == (if key in w.table && key !in w0.table then 1 else 0)
  }

  /** One statement of a contender. */
  lemma ContenderStep(e: Engine, p: Plan, pc: Pc, t: Table)
    requires ValidPlan(p) && ExactFence(e, p.fence) && p.Strict()
    requires !pc.Finished? && Remembers(p, pc)
    requires p.key in t ==> HasFence(t[p.key], p.fence)
    ensures var (t', pc') := Step(e, p, pc, t);
      && (p.key in t ==> p.key in t')
      && (p.key in t' ==> HasFence(t'[p.key], p.fence))
      && (p.key in t ==> AtMost(FenceOf(t[p.key], p.fence), FenceOf(t'[p.key], p.fence)))
      && (pc' == Finished(SaveInserted) <==> p.key !in t && p.key in t')
      && (RowAt(t', p.key) != RowAt(t, p.key) ==>
            (pc' == Finished(SaveInserted) || pc' == Finished(SaveUpdated)) && p.key in t'
            && FenceOf(t'[p.key], p.fence) == p.target && AlreadyStored(e, p, t'[p.key]))
      && (pc'.Finished? && pc'.reply.Settled() ==> p.key in t' && AtMost(p.target, FenceOf(t'[p.key], p.fence)))
  {
    hide Clashes, SameUnique, Compare, AlreadyStored, Updated, Fresh, OneStep;
    StepIsAtomicSave(e, p, pc, t);
    StepRemembers(e, p, pc, t);
    StepWrites(e, p, pc, t);
    CompareEqual(p.target);
    var row := if p.key in t then t[p.key] else map[];
    WrittenFence(e, p, row);
    WrittenRow(e, p, row);
    if p.key in t {
      AdmitsMeaning(p, row);
      CompareEqual(FenceOf(row, p.fence));
      AtMostTotal(p.target, FenceOf(row, p.fence));
      if AlreadyStored(e, p, row) {
        StoredFence(e, p, row);
      }
    }
  }

  lemma ContestStep(e: Engine, ws: seq<World>, evs: seq<Event>, key: Key, fence: seq<Column>, k: nat)
    requires Contest(e, ws, evs, key, fence) && k < |evs|
    requires Standing(e, ws[0], ws[k], key, fence) && Sound(e, ws[k])
    ensures Standing(e, ws[0], ws[k + 1], key, fence)
    ensures key in ws[k].table ==>
      key in ws[k + 1].table && AtMost(FenceOf(ws[k].table[key], fence), FenceOf(ws[k + 1].table[key], fence))
  {
    hide Standing;
    assert Follows(e, ws, evs, k);
    var w, w', ev := ws[k], ws[k + 1], evs[k];
    if ev.Advance? && Writer(w, key, ev.id) {
      ContenderMoves(e, ws[0], w, w', key, fence, ev.id);
    } else {
      if ev.Advance? || ev.Break? {
        StepWrites(e, w.calls[ev.id].plan, w.calls[ev.id].pc, w.table);
      }
      assert RowAt(w'.table, key) == RowAt(w.table, key);
      BystanderMoves(e, ws[0], w, w', key, fence);
    }
  }

  lemma BystanderMoves(e: Engine, w0: World, w: World, w': World, key: Key, fence: seq<Column>)
    requires Standing(e, w0, w, key, fence)
    requires RowAt(w'.table, key) == RowAt(w.table, key)
    requires forall id :: Writer(w, key, id) ==> Writer(w', key, id) && w'.calls[id] == w.calls[id]
    requires forall id :: Writer(w', key, id) && !Writer(w, key, id) ==>
      && ValidPlan(w'.calls[id].plan) && w'.calls[id].plan.fence == fence && w'.calls[id].plan.Strict()
      && w'.calls[id].pc == START
    ensures Standing(e, w0, w', key, fence)
    ensures key in w.table ==> key in w'.table && AtMost(FenceOf(w.table[key], fence), FenceOf(w'.table[key], fence))
  {
    hide AlreadyStored, ValidPlan, FenceOf, HasFence, Compare, LastWritten;
    assert key in w'.table <==> key in w.table;
    assert key in w.table ==> w'.table[key] == w.table[key];
    assert forall id :: Wrote(w, key, id) ==> Wrote(w', key, id);
    assert forall id :: Done(w', key, id) ==> Done(w, key, id);
    assert Inserters(w', key) == Inserters(w, key);
    if key in w.table {
      CompareEqual(FenceOf(w.table[key], fence));
      SameWriter(e, w0, w, w', key, fence);
    }
  }

  lemma SameWriter(e: Engine, w0: World, w: World, w': World, key: Key, fence: seq<Column>)
    requires key in w.table && key in w'.table && w'.table[key] == w.table[key] && HasFence(w.table[key], fence)
    requires LastWritten(e, w0, w, key, fence)
    requires forall id :: Wrote(w, key, id) ==> Wrote(w', key, id) && w'.calls[id] == w.calls[id]
    ensures LastWritten(e, w0, w', key, fence)
  {
    hide AlreadyStored, FenceOf, HasFence;
    if !(key in w0.table && w.table[key] == w0.table[key]) {
      var j :| Wrote(w, key, j) && FenceOf(w.table[key], fence) == w.calls[j].plan.target
               && AlreadyStored(e, w.calls[j].plan, w.table[key]);
      assert Wrote(w', key, j);
    }
  }

  lemma ContenderMoves(e: Engine, w0: World, w: World, w': World, key: Key, fence: seq<Column>, id: nat)
    requires Standing(e, w0, w, key, fence) && ExactFence(e, fence)
    requires Writer(w, key, id) && !w.calls[id].pc.Finished? && Remembers(w.calls[id].plan, w.calls[id].pc)
    requires var c := w.calls[id];
      var (t', pc') := Step(e, c.plan, c.pc, w.table);
      w' == World(t', w.calls[id := c.(pc := pc')])
    ensures Standing(e, w0, w', key, fence)
    ensures key in w.table ==> key in w'.table && AtMost(FenceOf(w.table[key], fence), FenceOf(w'.table[key], fence))
  {
    hide Step, AlreadyStored, Compare, LastWritten;
    var p := w.calls[id].plan;
    ContenderStep(e, p, w.calls[id].pc, w.table);
    InsertersMove(w, w', key, id);
    if key in w'.table {
      var now := FenceOf(w'.table[key], fence);
      if RowAt(w'.table, key) != RowAt(w.table, key) {
        JustWritten(e, w0, w', key, fence, id);
      } else {
        LastWrittenStays(e, w0, w, w', key, fence, id);
      }
      if key in w.table {
        var before := FenceOf(w.table[key], fence);
        if key in w0.table {
          AtMostTransitive(FenceOf(w0.table[key], fence), before, now);
        }
        DoneStays(w, w', key, id, before, now);
      }
    }
  }

  lemma JustWritten(e: Engine, w0: World, w: World, key: Key, fence: seq<Column>, id: nat)
    requires Wrote(w, key, id) && key in w.table && HasFence(w.table[key], fence)
    requires FenceOf(w.table[key], fence) == w.calls[id].plan.target && AlreadyStored(e, w.calls[id].plan, w.table[key])
    ensures LastWritten(e, w0, w, key, fence)
  {
  }

  /** Only call id moved, and it was not finished before. */
  predicate OnlyMoved(w: World, w': World, id: nat) {
    && id in w.calls && !w.calls[id].pc.Finished?
    && w'.calls.Keys == w.calls.Keys && w'.calls[id].plan == w.calls[id].plan
    && forall j | j in w.calls :: j != id ==> w'.calls[j] == w.calls[j]
  }

  lemma InsertersMove(w: World, w': World, key: Key, id: nat)
    requires OnlyMoved(w, w', id) && Writer(w, key, id)
    ensures |Inserters(w', key)| == |Inserters(w, key)| + (if w'.calls[id].pc == Finished(SaveInserted) then 1 else 0)
  {
    var before, after := Inserters(w, key), Inserters(w', key);
    assert id !in before;
    assert forall j :: j != id ==> (j in after <==> j in before);
    assert after == if w'.calls[id].pc == Finished(SaveInserted) then before + {id} else before;
  }

  lemma LastWrittenStays(e: Engine, w0: World, w: World, w': World, key: Key, fence: seq<Column>, id: nat)
    requires OnlyMoved(w, w', id)
    requires key in w.table && key in w'.table && w'.table[key] == w.table[key] && HasFence(w.table[key], fence)
    requires LastWritten(e, w0, w, key, fence)
    ensures LastWritten(e, w0, w', key, fence)
  {
    if !(key in w0.table && w.table[key] == w0.table[key]) {
      var j :| Wrote(w, key, j) && FenceOf(w.table[key], fence) == w.calls[j].plan.target
               && AlreadyStored(e, w.calls[j].plan, w.table[key]);
      assert j != id && Wrote(w', key, j);
    }
  }

  lemma DoneStays(w: World, w': World, key: Key, id: nat, before: seq<nat>, now: seq<nat>)
    requires OnlyMoved(w, w', id) && AtMost(before, now)
    requires forall j :: Done(w, key, j) ==> AtMost(w.calls[j].plan.target, before)
    requires Done(w', key, id) ==> AtMost(w'.calls[id].plan.target, now)
    ensures forall j :: Done(w', key, j) ==> AtMost(w'.calls[j].plan.target, now)
  {
    forall j | Done(w', key, j) ensures AtMost(w'.calls[j].plan.target, now) {
      if j != id {
        assert Done(w, key, j);
        AtMostTransitive(w.calls[j].plan.target, before, now);
      }
    }
  }

  lemma {:induction false} StandingAlways(e: Engine, ws: seq<World>, evs: seq<Event>, key: Key, fence: seq<Column>, k: nat)
    requires Contest(e, ws, evs, key, fence) && k <= |evs|
    ensures Standing(e, ws[0], ws[k], key, fence)
    ensures k > 0 && key in ws[k - 1].table ==>
      && key in ws[k].table
      && HasFence(ws[k - 1].table[key], fence) && HasFence(ws[k].table[key], fence)
      && AtMost(FenceOf(ws[k - 1].table[key], fence), FenceOf(ws[k].table[key], fence))
  {
    if k == 0 {
      assert Inserters(ws[0], key) == {};
      if key in ws[0].table {
        CompareEqual(FenceOf(ws[0].table[key], fence));
      }
    } else {
      StandingAlways(e, ws, evs, key, fence, k - 1);
      RunIsSound(e, ws, evs, k - 1);
      ContestStep(e, ws, evs, key, fence, k - 1);
    }
  }

  /** Along the whole run the stored fence never decreases. */
  lemma {:induction false} ContestFenceGrows(e: Engine, ws: seq<World>, evs: seq<Event>, key: Key, fence: seq<Column>, i: nat, k: nat)
    requires Contest(e, ws, evs, key, fence) && i <= k <= |evs| && key in ws[i].table
    ensures HasFence(ws[i].table[key], fence) && key in ws[k].table && HasFence(ws[k].table[key], fence)
    ensures AtMost(FenceOf(ws[i].table[key], fence), FenceOf(ws[k].table[key], fence))
  {
    hide HasFence, FenceOf;
    StandingAlways(e, ws, evs, key, fence, k);
    if i == k {
      CompareEqual(FenceOf(ws[i].table[key], fence));
    } else {
      ContestFenceGrows(e, ws, evs, key, fence, i, k - 1);
      AtMostTransitive(FenceOf(ws[i].table[key], fence), FenceOf(ws[k - 1].table[key], fence), FenceOf(ws[k].table[key], fence));
    }
  }

  /** An overwrite of the contested row makes its fence strictly larger. */
  lemma ChangedRowClimbs(e: Engine, ws: seq<World>, evs: seq<Event>, key: Key, fence: seq<Column>, k: nat)
    requires Contest(e, ws, evs, key, fence) && k < |evs| && key in ws[k].table
    ensures key in ws[k + 1].table && HasFence(ws[k].table[key], fence) && HasFence(ws[k + 1].table[key], fence)
    ensures ws[k + 1].table[key] == ws[k].table[key]
            || Compare(FenceOf(ws[k].table[key], fence), FenceOf(ws[k + 1].table[key], fence)) < 0
  {
    hide Standing, LastWritten, Step, Compare, Admits, Follows;
    StandingAlways(e, ws, evs, key, fence, k);
    StandingAlways(e, ws, evs, key, fence, k + 1);
    StandingFence(e, ws[0], ws[k], key, fence);
    StandingFence(e, ws[0], ws[k + 1], key, fence);
    if ws[k + 1].table[key] != ws[k].table[key] {
      var id := ContenderWrote(e, ws, evs, key, fence, k);
      var p, t := ws[k].calls[id].plan, ws[k].table;
      StandingPlan(e, ws[0], ws[k], key, fence, id);
      StepWrites(e, p, ws[k].calls[id].pc, t);
      AdmitsMeaning(p, t[key]);
      WrittenFence(e, p, t[key]);
    }
  }

  lemma StandingFence(e: Engine, w0: World, w: World, key: Key, fence: seq<Column>)
    requires Standing(e, w0, w, key, fence) && key in w.table
    ensures HasFence(w.table[key], fence)
  {
  }

  lemma StandingPlan(e: Engine, w0: World, w: World, key: Key, fence: seq<Column>, id: nat)
    requires Standing(e, w0, w, key, fence) && Writer(w, key, id)
    ensures ValidPlan(w.calls[id].plan) && w.calls[id].plan.fence == fence && w.calls[id].plan.Strict()
  {
  }

  /** Only a statement of a contender changes the contested row. */
  lemma ContenderWrote(e: Engine, ws: seq<World>, evs: seq<Event>, key: Key, fence: seq<Column>, k: nat) returns (id: nat)
    requires Contest(e, ws, evs, key, fence) && k < |evs| && RowAt(ws[k + 1].table, key) != RowAt(ws[k].table, key)
    ensures Writer(ws[k], key, id) && evs[k] == Advance(id) && ExactFence(e, fence)
    ensures var c := ws[k].calls[id];
      !c.pc.Finished? && |c.plan.fence| == |c.plan.target| && ws[k + 1].table == Step(e, c.plan, c.pc, ws[k].table).0
  {
    hide Step;
    assert Follows(e, ws, evs, k);
    var w, ev := ws[k], evs[k];
    if ev.Advance? || ev.Break? {
      StepWrites(e, w.calls[ev.id].plan, w.calls[ev.id].pc, w.table);
    }
    id := ev.id;
  }

  /** So as long as the fence is the initial one, the row is the initial row. */
  lemma {:induction false} SameFenceSameRow(e: Engine, ws: seq<World>, evs: seq<Event>, key: Key, fence: seq<Column>, k: nat)
    requires Contest(e, ws, evs, key, fence) && k <= |evs| && key in ws[0].table
    ensures HasFence(ws[0].table[key], fence) && key in ws[k].table && HasFence(ws[k].table[key], fence)
    ensures FenceOf(ws[k].table[key], fence) == FenceOf(ws[0].table[key], fence) ==> ws[k].table[key] == ws[0].table[key]
  {
    hide Compare, Follows;
    ContestFenceGrows(e, ws, evs, key, fence, 0, k);
    if k > 0 {
      ContestFenceGrows(e, ws, evs, key, fence, 0, k - 1);
      SameFenceSameRow(e, ws, evs, key, fence, k - 1);
      ChangedRowClimbs(e, ws, evs, key, fence, k - 1);
      var first, before, now := FenceOf(ws[0].table[key], fence), FenceOf(ws[k - 1].table[key], fence), FenceOf(ws[k].table[key], fence);
      AtMostTotal(first, before);
      AtMostTotal(before, now);
      AtMostTotal(now, before);
    }
  }

  /** A tuple offered for the row: the fence stored at the start or the fence of some message. */
  ghost predicate Offered(w0: World, w: World, key: Key, fence: seq<Column>, f: seq<nat>) {
    || (key in w0.table && HasFence(w0.table[key], fence) && f == FenceOf(w0.table[key], fence))
    || (exists id :: Writer(w, key, id) && f == w.calls[id].plan.target)
  }

  /** All contenders have settled, with distinct fences, and there is a row to speak of. */
  ghost predicate Settled(w0: World, w: World, key: Key) {
    && (forall id :: Writer(w, key, id) ==> Done(w, key, id))
    && (forall i, j :: Writer(w, key, i) && Writer(w, key, j) && i != j ==> w.calls[i].plan.target != w.calls[j].plan.target)
    && (key in w0.table || exists id :: Writer(w, key, id))
  }

  /** The message was newer than what was there at the start. */
  ghost predicate NewerThanInitial(w0: World, key: Key, fence: seq<Column>, p: Plan)
    requires key in w0.table ==> HasFence(w0.table[key], fence)
  {
    key in w0.table ==> Compare(FenceOf(w0.table[key], fence), p.target) < 0
  }

  /** When every contender has settled, the row exists and its fence is the lexicographic maximum of
      the initial fence and all message fences. The message holding that maximum is the whole row exactly
      when it is newer than the initial row, or the initial row already was that message; if no message
      is newer, the initial row stands. Exactly one call inserted if the row was absent, none if it was
      there. */
  lemma NewestWins(e: Engine, ws: seq<World>, evs: seq<Event>, key: Key, fence: seq<Column>)
    requires Contest(e, ws, evs, key, fence) && Settled(ws[0], ws[|evs|], key)
    ensures var w0, w := ws[0], ws[|evs|];
      && (key in w0.table ==> HasFence(w0.table[key], fence))
      && key in w.table && HasFence(w.table[key], fence)
      && Offered(w0, w, key, fence, FenceOf(w.table[key], fence))
      && (forall f :: Offered(w0, w, key, fence, f) ==> AtMost(f, FenceOf(w.table[key], fence)))
      && (forall id :: Writer(w, key, id) && w.calls[id].plan.target == FenceOf(w.table[key], fence) ==>
            (AlreadyStored(e, w.calls[id].plan, w.table[key]) <==>
              || NewerThanInitial(w0, key, fence, w.calls[id].plan)
              || AlreadyStored(e, w.calls[id].plan, w0.table[key])))
      && (key in w0.table && FenceOf(w.table[key], fence) == FenceOf(w0.table[key], fence) ==> w.table[key] == w0.table[key])
      && |Inserters(w, key)| == (if key in w0.table then 0 else 1)
  {
    hide Compare, AlreadyStored, Follows;
    var w0, w := ws[0], ws[|evs|];
    StandingAlways(e, ws, evs, key, fence, |evs|);
    if key !in w0.table {
      var id :| Writer(w, key, id);
      assert Done(w, key, id);
    }
    var last := FenceOf(w.table[key], fence);
    forall f | Offered(w0, w, key, fence, f) ensures AtMost(f, last) {
      if id :| Writer(w, key, id) && f == w.calls[id].plan.target {
        assert Done(w, key, id);
      }
    }
    if id :| Wrote(w, key, id) && last == w.calls[id].plan.target && AlreadyStored(e, w.calls[id].plan, w.table[key]) {
      assert Writer(w, key, id);
    }
    if key in w0.table {
      SameFenceSameRow(e, ws, evs, key, fence, |evs|);
    }
    forall id | Writer(w, key, id) && w.calls[id].plan.target == last
      ensures AlreadyStored(e, w.calls[id].plan, w.table[key]) <==>
        NewerThanInitial(w0, key, fence, w.calls[id].plan) || AlreadyStored(e, w.calls[id].plan, w0.table[key])
    {
      MaximumIsStored(e, w0, w, key, fence, id);
    }
  }

  /** One message holding the maximum: above the initial fence it wrote the row, at the initial fence the
      initial row is still there. */
  lemma MaximumIsStored(e: Engine, w0: World, w: World, key: Key, fence: seq<Column>, id: nat)
    requires Standing(e, w0, w, key, fence) && Settled(w0, w, key) && key in w.table && Writer(w, key, id)
    requires w.calls[id].plan.target == FenceOf(w.table[key], fence)
    requires key in w0.table && FenceOf(w.table[key], fence) == FenceOf(w0.table[key], fence) ==> w.table[key] == w0.table[key]
    ensures AlreadyStored(e, w.calls[id].plan, w.table[key]) <==>
      NewerThanInitial(w0, key, fence, w.calls[id].plan) || AlreadyStored(e, w.calls[id].plan, w0.table[key])
  {
    hide Compare, AlreadyStored;
    var p := w.calls[id].plan;
    if key in w0.table {
      var first := FenceOf(w0.table[key], fence);
      AtMostTotal(first, p.target);
      AtMostTotal(p.target, first);
    }
    if NewerThanInitial(w0, key, fence, p) {
      CompareEqual(p.target);
      var j :| Wrote(w, key, j) && FenceOf(w.table[key], fence) == w.calls[j].plan.target
               && AlreadyStored(e, w.calls[j].plan, w.table[key]);
      assert Writer(w, key, j);
    }
  }

  // ---------------------------------------------------------------- where the promise fails

  /** A call that has the table to itself: begin, UPDATE, state read. */
  ghost function TieRun(e: Engine, p: Plan, t: Table): seq<World> {
    [World(t, map[]), World(t, map[0 := Call(p, START)]), World(t, map[0 := Call(p, AtRead(START.v))]),
     World(t, map[0 := Call(p, Finished(SaveRejected(p.target)))])]
  }

  /** A strict message that carries the stored fence is rejected, whatever else it says. */
  lemma TieKeepsTheStoredRow(e: Engine, p: Plan, t: Table)
    requires ValidPlan(p) && ExactFence(e, p.fence) && p.Strict()
    requires p.key in t && HasFence(t[p.key], p.fence) && FenceOf(t[p.key], p.fence) == p.target
    ensures var ws, evs := TieRun(e, p, t), [Begin(0, p), Advance(0), Advance(0)];
      && Contest(e, ws, evs, p.key, p.fence) && Settled(ws[0], ws[3], p.key)
      && Writer(ws[3], p.key, 0) && ws[3].table == t
    ensures Alone(e, p, START, t) == (t, SaveRejected(p.target), 2)
  {
    var ws, evs := TieRun(e, p, t), [Begin(0, p), Advance(0), Advance(0)];
    TieSteps(e, p, t);
    assert Follows(e, ws, evs, 0);
    assert Follows(e, ws, evs, 1);
    assert Follows(e, ws, evs, 2);
    CompareEqual(p.target);
    TieVerdict(e, p, t);
  }

  lemma TieVerdict(e: Engine, p: Plan, t: Table)
    requires ValidPlan(p) && ExactFence(e, p.fence) && p.Strict()
    requires p.key in t && HasFence(t[p.key], p.fence) && FenceOf(t[p.key], p.fence) == p.target
    ensures Alone(e, p, START, t) == (t, SaveRejected(p.target), 2)
  {
    hide Alone;
    AloneGivesVerdict(e, p, t);
    AdmitsMeaning(p, t[p.key]);
    CompareEqual(p.target);
  }

  lemma TieSteps(e: Engine, p: Plan, t: Table)
    requires ValidPlan(p) && ExactFence(e, p.fence) && p.Strict()
    requires p.key in t && HasFence(t[p.key], p.fence) && FenceOf(t[p.key], p.fence) == p.target
    ensures Step(e, p, START, t) == (t, AtRead(START.v))
    ensures Step(e, p, AtRead(START.v), t) == (t, Finished(SaveRejected(p.target)))
  {
    AdmitsMeaning(p, t[p.key]);
    CompareEqual(p.target);
  }

  /** One row, one message: version 1 is stored, another version 1 is offered. */
  const EXACT := Engine(false, (c, v) => v, (c, x, v) => x == v, [], map[])

  const STORED: Row := map["seq" := UInt(1), "body" := UInt(7)]

  const OFFERED: Row := map["seq" := UInt(1), "body" := UInt(5)]

  const SAVE := Plan([UInt(1)], ["seq"], [1], false, OFFERED, OFFERED)

  /** The message holds the maximum of all fences and is not the row in the end. */
  lemma MaximumIsNotStored()
    ensures var t: Table := map[SAVE.key := STORED];
      var ws, evs := TieRun(EXACT, SAVE, t), [Begin(0, SAVE), Advance(0), Advance(0)];
      && Contest(EXACT, ws, evs, SAVE.key, SAVE.fence) && Settled(ws[0], ws[3], SAVE.key) && Writer(ws[3], SAVE.key, 0)
      && HasFence(STORED, SAVE.fence) && FenceOf(STORED, SAVE.fence) == SAVE.target
      && ws[3].table[SAVE.key] == STORED && !AlreadyStored(EXACT, SAVE, STORED)
  {
    var t: Table := map[SAVE.key := STORED];
    assert SAVE.target[0] != 0;
    assert Cell(STORED, "seq") == UInt(1);
    assert FenceOf(STORED, SAVE.fence) == SAVE.target;
    assert Cell(STORED, "body") != EXACT.store("body", SAVE.set_["body"]);
    TieKeepsTheStoredRow(EXACT, SAVE, t);
  }
}
