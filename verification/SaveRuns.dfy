/** Any number of fenced saves and other writers interleaving statement by statement. */
module SaveRuns {
  import opened Wrappers
  import opened Fence
  import opened SaveStatements
  import opened ConditionalSave

  datatype Call = Call(plan: Plan, pc: Pc)

  datatype World = World(table: Table, calls: map<nat, Call>)

  /** One scheduler choice. Break is a statement whose reply is lost: it may or may not have been
      executed by the server. Outside is any statement of a writer that is not a fenced save. */
  datatype Event =
    | Begin(id: nat, plan: Plan)
    | Advance(id: nat)
    | Break(id: nat, executed: bool)
    | Outside(table: Table)

  ghost predicate Enabled(w: World, ev: Event) {
    match ev
    case Begin(id, plan) => id !in w.calls && ValidPlan(plan)
    case Advance(id) => id in w.calls && !w.calls[id].pc.Finished? && |w.calls[id].plan.fence| == |w.calls[id].plan.target|
    case Break(id, _) => id in w.calls && !w.calls[id].pc.Finished? && |w.calls[id].plan.fence| == |w.calls[id].plan.target|
    case Outside(_) => true
  }

  ghost function Next(e: Engine, w: World, ev: Event): World
    requires Enabled(w, ev)
  {
    match ev
    case Begin(id, plan) => w.(calls := w.calls[id := Call(plan, START)])
    case Advance(id) =>
      var c := w.calls[id];
      var (t, pc) := Step(e, c.plan, c.pc, w.table);
      World(t, w.calls[id := c.(pc := pc)])
    case Break(id, executed) =>
      var c := w.calls[id];
      var t := if executed then Step(e, c.plan, c.pc, w.table).0 else w.table;
      World(t, w.calls[id := c.(pc := Finished(Failed))])
    case Outside(t) => w.(table := t)
  }

  ghost predicate Follows(e: Engine, ws: seq<World>, evs: seq<Event>, i: nat)
    requires |ws| == |evs| + 1 && i < |evs|
  {
    Enabled(ws[i], evs[i]) && ws[i + 1] == Next(e, ws[i], evs[i])
  }

  /** A run: worlds ws[0], ws[1], ... with event evs[i] leading from ws[i] to ws[i + 1]. */
  ghost predicate Run(e: Engine, ws: seq<World>, evs: seq<Event>) {
    && |ws| == |evs| + 1
    && ws[0].calls == map[]
    && forall i: nat :: i < |evs| ==> Follows(e, ws, evs, i)
  }

  /** Fence columns of every call are exact columns of this database. */
  ghost predicate ExactRun(e: Engine, evs: seq<Event>) {
    forall i :: 0 <= i < |evs| && evs[i].Begin? ==> ExactFence(e, evs[i].plan.fence)
  }

  // ---------------------------------------------------------------- invariants of every run

  ghost predicate Sound(e: Engine, w: World) {
    forall id :: id in w.calls ==>
      && ValidPlan(w.calls[id].plan) && ExactFence(e, w.calls[id].plan.fence)
      && Remembers(w.calls[id].plan, w.calls[id].pc)
  }

  lemma {:induction false} RunIsSound(e: Engine, ws: seq<World>, evs: seq<Event>, k: nat)
    requires Run(e, ws, evs) && ExactRun(e, evs) && k <= |evs|
    ensures Sound(e, ws[k])
  {
    hide ValidPlan, ExactFence, Step;
    if k > 0 {
      RunIsSound(e, ws, evs, k - 1);
      assert Follows(e, ws, evs, k - 1);
      var w, ev := ws[k - 1], evs[k - 1];
      if ev.Advance? {
        StepRemembers(e, w.calls[ev.id].plan, w.calls[ev.id].pc, w.table);
      }
    }
  }

  /** A call never changes its plan, and once finished it stays as it ended. */
  lemma {:induction false} CallsPersist(e: Engine, ws: seq<World>, evs: seq<Event>, i: nat, k: nat, id: nat)
    requires Run(e, ws, evs) && i <= k <= |evs| && id in ws[i].calls
    ensures id in ws[k].calls && ws[k].calls[id].plan == ws[i].calls[id].plan
    ensures ws[i].calls[id].pc.Finished? ==> ws[k].calls[id].pc == ws[i].calls[id].pc
  {
    if i < k {
      CallsPersist(e, ws, evs, i, k - 1, id);
      assert Follows(e, ws, evs, k - 1);
    }
  }

  /** Every call was begun at some event. */
  lemma {:induction false} CallWasBegun(e: Engine, ws: seq<World>, evs: seq<Event>, k: nat, id: nat) returns (b: nat)
    requires Run(e, ws, evs) && k <= |evs| && id in ws[k].calls
    ensures b < k && evs[b] == Begin(id, ws[k].calls[id].plan)
    ensures id !in ws[b].calls && id in ws[b + 1].calls
    ensures ws[b + 1].calls[id] == Call(ws[k].calls[id].plan, START)
  {
    assert k > 0;
    assert Follows(e, ws, evs, k - 1);
    if id in ws[k - 1].calls {
      b := CallWasBegun(e, ws, evs, k - 1, id);
    } else {
      b := k - 1;
    }
  }

  // ---------------------------------------------------------------- the one-step specification

  /** A fenced save may overwrite a row below its target, an unfenced one any row. */
  predicate Admitted(p: Plan, row: Row)
    requires |p.fence| == |p.target|
  {
    !p.Fenced() || Below(row, p.fence, p.target, p.allowEqual)
  }

  /** A save as one atomic action: the table it leaves, if this reply is a right answer on this table.
      Absent row: insert. Newer fence stored: reject and tell it. Equal row: leave it. Otherwise
      overwrite the row. A lost reply may stand for either write. */
  ghost function OneStep(e: Engine, p: Plan, t: Table, reply: Reply): Option<Table>
    requires |p.fence| == |p.target|
  {
    var here := p.key in t;
    var inserts := !here && !Clashes(e, t, p.key, Fresh(e, p));
    var overwrites := here && Admitted(p, t[p.key]) && !AlreadyStored(e, p, t[p.key])
                      && !Clashes(e, t, p.key, Updated(e, p, t[p.key]));
    match reply
    case SaveInserted =>
      if inserts then Some(t[p.key := Fresh(e, p)]) else None
    case SaveUpdated =>
      if overwrites then Some(t[p.key := Updated(e, p, t[p.key])])
      else if here && Admitted(p, t[p.key]) && AlreadyStored(e, p, t[p.key]) && e.clientFoundRows then Some(t)
      else None
    case SaveRejected(stored) =>
      if here && p.Fenced() && HasFence(t[p.key], p.fence) && stored == FenceOf(t[p.key], p.fence) && !p.Holds(stored)
      then Some(t) else None
    case SaveUnchanged(stored) =>
      if here && Admitted(p, t[p.key]) && RowMatches(e, p, t)
         && HasFence(t[p.key], p.fence) && stored == FenceOf(t[p.key], p.fence)
      then Some(t) else None
    case Failed =>
      if inserts then Some(t[p.key := Fresh(e, p)])
      else if overwrites then Some(t[p.key := Updated(e, p, t[p.key])])
      else None
    case _ => None
  }

  /** Every statement either settles its call exactly as the one-step specification says on the table
      it found, or leaves the table alone. */
  lemma StepIsAtomicSave(e: Engine, p: Plan, pc: Pc, t: Table)
    requires ValidPlan(p) && ExactFence(e, p.fence)
    requires !pc.Finished? && Remembers(p, pc)
    ensures var (t', pc') := Step(e, p, pc, t);
      && (pc'.Finished? && pc'.reply.Settled() ==> OneStep(e, p, t, pc'.reply) == Some(t'))
      && (t' != t ==> pc'.Finished? && pc'.reply.Settled() && OneStep(e, p, t, Failed) == Some(t'))
  {
    hide SameUnique, Clashes, AlreadyStored, Updated, Fresh, Compare;
    if p.key in t {
      var row := t[p.key];
      AdmitsMeaning(p, row);
      if pc.AtCompare? && RowMatches(e, p, t) {
        MatchedFence(e, p, t);
        CompareEqual(p.target);
      }
    }
  }

  // ---------------------------------------------------------------- linearization

  /** What took effect, and at which event. */
  datatype Act = Took(at: nat, id: nat, reply: Reply) | Meddled(at: nat, table: Table)

  ghost function ActsAt(e: Engine, ws: seq<World>, evs: seq<Event>, i: nat): seq<Act>
    requires Run(e, ws, evs) && i < |evs|
  {
    assert Follows(e, ws, evs, i);
    match evs[i]
    case Begin(_, _) => []
    case Advance(id) =>
      var pc := ws[i + 1].calls[id].pc;
      if pc.Finished? && pc.reply.Settled() then [Took(i, id, pc.reply)] else []
    case Break(id, _) => if ws[i + 1].table != ws[i].table then [Took(i, id, Failed)] else []
    case Outside(t) => [Meddled(i, t)]
  }

  /** The effects of the first k events, in order. */
  ghost function History(e: Engine, ws: seq<World>, evs: seq<Event>, k: nat): seq<Act>
    requires Run(e, ws, evs) && k <= |evs|
  {
    if k == 0 then [] else History(e, ws, evs, k - 1) + ActsAt(e, ws, evs, k - 1)
  }

  /** A sequential execution of one-step saves; None when some reply would be wrong. */
  ghost function Sequential(e: Engine, calls: map<nat, Call>, acts: seq<Act>, t: Table): Option<Table>
    requires forall id :: id in calls ==> |calls[id].plan.fence| == |calls[id].plan.target|
  {
    if acts == [] then Some(t)
    else
      var before := Sequential(e, calls, acts[..|acts| - 1], t);
      var act := acts[|acts| - 1];
      if before.None? then None
      else if act.Meddled? then Some(act.table)
      else if act.id !in calls then None
      else OneStep(e, calls[act.id].plan, before.value, act.reply)
  }

  lemma {:induction false} SequentialMoreCalls(e: Engine, c1: map<nat, Call>, c2: map<nat, Call>, acts: seq<Act>, t: Table)
    requires forall id :: id in c1 ==> |c1[id].plan.fence| == |c1[id].plan.target|
    requires forall id :: id in c2 ==> |c2[id].plan.fence| == |c2[id].plan.target|
    requires forall id :: id in c1 ==> id in c2 && c1[id].plan == c2[id].plan
    requires Sequential(e, c1, acts, t).Some?
    ensures Sequential(e, c2, acts, t) == Sequential(e, c1, acts, t)
  {
    if acts != [] {
      SequentialMoreCalls(e, c1, c2, acts[..|acts| - 1], t);
    }
  }

  /** An event either leaves the table alone and records nothing, or records the one step it is. */
  lemma EventIsAct(e: Engine, ws: seq<World>, evs: seq<Event>, k: nat)
    requires Run(e, ws, evs) && k < |evs| && Sound(e, ws[k])
    ensures var now := ActsAt(e, ws, evs, k);
      && |now| <= 1
      && (now == [] ==> ws[k + 1].table == ws[k].table)
      && (now != [] && now[0].Meddled? ==> ws[k + 1].table == now[0].table)
      && (now != [] && now[0].Took? ==>
            && now[0].id in ws[k + 1].calls && |ws[k + 1].calls[now[0].id].plan.fence| == |ws[k + 1].calls[now[0].id].plan.target|
            && OneStep(e, ws[k + 1].calls[now[0].id].plan, ws[k].table, now[0].reply) == Some(ws[k + 1].table))
  {
    hide Step, OneStep, Remembers, ExactFence;
    assert Follows(e, ws, evs, k);
    var w, ev := ws[k], evs[k];
    if ev.Advance? || ev.Break? {
      StepIsAtomicSave(e, w.calls[ev.id].plan, w.calls[ev.id].pc, w.table);
    }
  }

  /** Linearizability: in every interleaving, executing the settled calls one after the other, each as
      a single step at the instant recorded for it, gives every one of them the reply it got and
      produces the very table the interleaved run produced. */
  lemma {:induction false} Linearizable(e: Engine, ws: seq<World>, evs: seq<Event>, k: nat)
    requires Run(e, ws, evs) && ExactRun(e, evs) && k <= |evs|
    ensures forall id :: id in ws[k].calls ==> |ws[k].calls[id].plan.fence| == |ws[k].calls[id].plan.target|
    ensures Sequential(e, ws[k].calls, History(e, ws, evs, k), ws[0].table) == Some(ws[k].table)
  {
    hide OneStep, Remembers, Step, ExactFence, Next, ActsAt, Follows;
    RunIsSound(e, ws, evs, k);
    if k > 0 {
      Linearizable(e, ws, evs, k - 1);
      RunIsSound(e, ws, evs, k - 1);
      var acts := History(e, ws, evs, k - 1);
      forall id | id in ws[k - 1].calls ensures id in ws[k].calls && ws[k].calls[id].plan == ws[k - 1].calls[id].plan {
        CallsPersist(e, ws, evs, k - 1, k, id);
      }
      SequentialMoreCalls(e, ws[k - 1].calls, ws[k].calls, acts, ws[0].table);
      EventIsAct(e, ws, evs, k - 1);
      var now := ActsAt(e, ws, evs, k - 1);
      if now != [] {
        var all := acts + now;
        assert all[..|all| - 1] == acts;
      } else {
        assert acts + now == acts;
      }
    }
  }

  /** What the event after world k records lies inside its call and is the end of that call. */
  lemma ActIsInside(e: Engine, ws: seq<World>, evs: seq<Event>, k: nat)
    requires Run(e, ws, evs) && k < |evs|
    ensures |ActsAt(e, ws, evs, k)| <= 1
    ensures forall act :: act in ActsAt(e, ws, evs, k) ==>
      && act.at == k && InsideCall(e, ws, evs, k + 1, act)
      && (act.Took? ==> act.id in ws[k].calls && !ws[k].calls[act.id].pc.Finished?)
  {
    hide Step;
    assert Follows(e, ws, evs, k);
    forall act | act in ActsAt(e, ws, evs, k) && act.Took? ensures InsideCall(e, ws, evs, k + 1, act) {
      var b := CallWasBegun(e, ws, evs, k, act.id);
      CallsPersist(e, ws, evs, k, k + 1, act.id);
    }
  }

  lemma InsideStays(e: Engine, ws: seq<World>, evs: seq<Event>, k: nat, act: Act)
    requires Run(e, ws, evs) && k < |evs| && InsideCall(e, ws, evs, k, act)
    ensures InsideCall(e, ws, evs, k + 1, act)
    ensures act.Took? ==> act.id in ws[k].calls && ws[k].calls[act.id].pc.Finished?
    ensures act.at < k
  {
    if act.Took? {
      CallsPersist(e, ws, evs, k, k + 1, act.id);
    }
  }

  /** A call that has just settled is recorded with its reply. */
  lemma SettlingIsRecorded(e: Engine, ws: seq<World>, evs: seq<Event>, k: nat, id: nat)
    requires Run(e, ws, evs) && k < |evs|
    requires id in ws[k + 1].calls && ws[k + 1].calls[id].pc.Finished? && ws[k + 1].calls[id].pc.reply.Settled()
    requires !(id in ws[k].calls && ws[k].calls[id].pc == ws[k + 1].calls[id].pc)
    ensures ActsAt(e, ws, evs, k) == [Took(k, id, ws[k + 1].calls[id].pc.reply)]
  {
    hide Step;
    assert Follows(e, ws, evs, k);
  }

  /** The recorded instants lie inside their calls, in order, at most one per call, and every settled
      call has exactly one with its own reply. */
  lemma {:induction false} InstantsInsideCalls(e: Engine, ws: seq<World>, evs: seq<Event>, k: nat)
    requires Run(e, ws, evs) && k <= |evs|
    ensures forall i :: 0 <= i < |History(e, ws, evs, k)| ==> InsideCall(e, ws, evs, k, History(e, ws, evs, k)[i])
    ensures forall i, j :: 0 <= i < j < |History(e, ws, evs, k)| ==>
              Apart(History(e, ws, evs, k)[i], History(e, ws, evs, k)[j])
    ensures forall id :: id in ws[k].calls && ws[k].calls[id].pc.Finished? && ws[k].calls[id].pc.reply.Settled() ==>
              HasAct(History(e, ws, evs, k), id, ws[k].calls[id].pc.reply)
  {
    hide Step, Next, ActsAt, InsideCall, Follows, HasAct;
    if k > 0 {
      InstantsInsideCalls(e, ws, evs, k - 1);
      ActIsInside(e, ws, evs, k - 1);
      var acts, now := History(e, ws, evs, k - 1), ActsAt(e, ws, evs, k - 1);
      var all := History(e, ws, evs, k);
      forall i | 0 <= i < |acts| ensures InsideCall(e, ws, evs, k, acts[i]) && (now != [] ==> Apart(acts[i], now[0])) {
        InsideStays(e, ws, evs, k - 1, acts[i]);
        assert now != [] ==> now[0] in now;
      }
      assert forall i :: |acts| <= i < |all| ==> all[i] in now;
      forall id | id in ws[k].calls && ws[k].calls[id].pc.Finished? && ws[k].calls[id].pc.reply.Settled()
        ensures HasAct(all, id, ws[k].calls[id].pc.reply)
      {
        var reply := ws[k].calls[id].pc.reply;
        if id in ws[k - 1].calls && ws[k - 1].calls[id].pc == ws[k].calls[id].pc {
          StillHasAct(acts, now, id, reply);
        } else {
          SettlingIsRecorded(e, ws, evs, k - 1, id);
          JustHasAct(acts, k - 1, id, reply);
        }
      }
    }
  }

  ghost predicate InsideCall(e: Engine, ws: seq<World>, evs: seq<Event>, k: nat, act: Act)
    requires Run(e, ws, evs) && k <= |evs|
  {
    && act.at < k
    && (act.Took? ==>
        && (evs[act.at] == Advance(act.id) || evs[act.at] == Break(act.id, true))
        && act.id in ws[k].calls && ws[k].calls[act.id].pc == Finished(act.reply)
        && exists b: nat :: b < act.at && evs[b] == Begin(act.id, ws[k].calls[act.id].plan))
  }

  predicate Apart(earlier: Act, later: Act) {
    earlier.at < later.at && (earlier.Took? && later.Took? ==> earlier.id != later.id)
  }

  ghost predicate HasAct(acts: seq<Act>, id: nat, reply: Reply) {
    exists i :: 0 <= i < |acts| && acts[i].Took? && acts[i].id == id && acts[i].reply == reply
  }

  lemma StillHasAct(acts: seq<Act>, now: seq<Act>, id: nat, reply: Reply)
    requires HasAct(acts, id, reply)
    ensures HasAct(acts + now, id, reply)
  {
    var i :| 0 <= i < |acts| && acts[i].Took? && acts[i].id == id && acts[i].reply == reply;
    assert (acts + now)[i] == acts[i];
  }

  lemma JustHasAct(acts: seq<Act>, at: nat, id: nat, reply: Reply)
    ensures HasAct(acts + [Took(at, id, reply)], id, reply)
  {
    assert (acts + [Took(at, id, reply)])[|acts|] == Took(at, id, reply);
  }

  /** A call that ends in an error reply of its own has changed nothing at any of its statements. */
  lemma ErrorsWriteNothing(e: Engine, ws: seq<World>, evs: seq<Event>, k: nat, id: nat, i: nat)
    requires Run(e, ws, evs) && ExactRun(e, evs) && i < k <= |evs|
    requires id in ws[k].calls && ws[k].calls[id].pc.Finished?
    requires !ws[k].calls[id].pc.reply.Settled() && !ws[k].calls[id].pc.reply.Failed?
    requires evs[i] == Advance(id) || evs[i] == Break(id, true) || evs[i] == Break(id, false)
    ensures ws[i + 1].table == ws[i].table
  {
    assert Follows(e, ws, evs, i);
    RunIsSound(e, ws, evs, i);
    CallsPersist(e, ws, evs, i + 1, k, id);
    StepIsAtomicSave(e, ws[i].calls[id].plan, ws[i].calls[id].pc, ws[i].table);
  }
}
