/** What every reply says about the tables the statements of its call found. */
module SaveReplies {
  import opened Wrappers
  import opened Fence
  import opened SaveStatements
  import opened ConditionalSave
  import opened SaveRuns
  import opened SaveGuarantees

  // ---------------------------------------------------------------- reasons

  /** A state query on this table sees the row with this fence. */
  predicate Saw(p: Plan, t: Table, stored: seq<nat>) {
    p.key in t && HasFence(t[p.key], p.fence) && FenceOf(t[p.key], p.fence) == stored
  }

  /** Statement i compared the row, seen just before with this fence, and it was not the message. */
  predicate Denied(e: Engine, p: Plan, found: seq<Table>, i: int, stored: seq<nat>) {
    1 <= i < |found| && Saw(p, found[i - 1], stored) && !RowMatches(e, p, found[i])
  }

  /** The row was there for one statement and gone for the last one. */
  ghost predicate Vanished(p: Plan, found: seq<Table>) {
    |found| > 0 && p.key !in found[|found| - 1] && exists i :: 0 <= i < |found| - 1 && p.key in found[i]
  }

  /** The reasons for each reply, in terms of the tables found. */
  ghost predicate Justified(e: Engine, p: Plan, found: seq<Table>, reply: Reply)
    requires |p.fence| == |p.target|
  {
    |found| > 0 &&
    var n := |found| - 1;
    match reply
    case SaveUpdated => p.key in found[n]
    case SaveInserted => p.key !in found[n]
    case SaveRejected(stored) => p.Fenced() && Saw(p, found[n], stored) && !p.Holds(stored)
    case SaveUnchanged(stored) => n > 0 && Saw(p, found[n - 1], stored) && RowMatches(e, p, found[n])
    case DuplicateKey =>
      || FoundClash(e, p, found[n])
      || (n > 0 && p.key !in found[n] && (p.key in found[n - 1] || FoundClash(e, p, found[n - 1])))
    case Disappeared => Vanished(p, found)
    case SchemaDrift => p.key in found[n] && !HasFence(found[n][p.key], p.fence)
    case Race(stored) => Saw(p, found[n], stored) || Denied(e, p, found, n, stored)
    case Mismatch(stored) => Denied(e, p, found, n, stored) && exists i :: 0 <= i < n && Denied(e, p, found, i, stored)
    case Failed => false
  }

  /** What a call remembers across statements did happen. */
  ghost predicate Happened(e: Engine, p: Plan, found: seq<Table>, v: Locals) {
    && (v.compared.Some? ==> v.compared.value.exists_ && exists i :: Denied(e, p, found, i, v.compared.value.stored))
    && (v.duplicate ==> exists i :: 0 <= i < |found| && p.key in found[i])
  }

  ghost predicate Explained(e: Engine, p: Plan, found: seq<Table>, pc: Pc)
    requires |p.fence| == |p.target|
  {
    match pc
    case AtUpdate(v) => Happened(e, p, found, v)
    case AtRead(v) => Happened(e, p, found, v)
    case AtInsert(v) => Happened(e, p, found, v)
    case AtReread(v) =>
      && |found| > 0 && Happened(e, p, found, v.(duplicate := false))
      && (p.key in found[|found| - 1] || FoundClash(e, p, found[|found| - 1]))
    case AtCompare(v, state) =>
      && |found| > 0 && Happened(e, p, found, v)
      && state.exists_ && v.last == state.stored && Saw(p, found[|found| - 1], state.stored)
    case Finished(reply) => Justified(e, p, found, reply)
  }

  // ---------------------------------------------------------------- every step keeps the books

  lemma HappenedStays(e: Engine, p: Plan, found: seq<Table>, v: Locals, t: Table)
    requires Happened(e, p, found, v)
    ensures Happened(e, p, found + [t], v)
  {
    hide RowMatches, Saw;
    var now := found + [t];
    if v.compared.Some? {
      var i :| Denied(e, p, found, i, v.compared.value.stored);
      assert Denied(e, p, now, i, v.compared.value.stored);
    }
    if v.duplicate {
      var i :| 0 <= i < |found| && p.key in found[i];
      assert p.key in now[i];
    }
  }

  lemma UpdateExplains(e: Engine, p: Plan, found: seq<Table>, v: Locals, t: Table)
    requires |p.fence| == |p.target| && Explained(e, p, found, AtUpdate(v))
    ensures Explained(e, p, found + [t], Step(e, p, AtUpdate(v), t).1)
  {
    hide Clashes, AlreadyStored, Updated, Happened, Admits;
    HappenedStays(e, p, found, v, t);
    assert (found + [t])[|found|] == t;
  }

  /** Either read that sees the row decides the same way. */
  lemma DecisionExplains(e: Engine, p: Plan, found: seq<Table>, v: Locals, t: Table, state: RowState)
    requires |p.fence| == |p.target| && state.exists_ && Saw(p, t, state.stored) && Happened(e, p, found + [t], v)
    ensures Explained(e, p, found + [t], Decide(p, v, state))
  {
    hide Saw, Denied;
    assert (found + [t])[|found|] == t;
  }

  lemma ReadExplains(e: Engine, p: Plan, found: seq<Table>, v: Locals, t: Table)
    requires |p.fence| == |p.target| && Explained(e, p, found, AtRead(v))
    ensures Explained(e, p, found + [t], Step(e, p, AtRead(v), t).1)
  {
    HappenedStays(e, p, found, v, t);
    var now := found + [t];
    assert now[|found|] == t;
    if p.key in t && HasFence(t[p.key], p.fence) {
      DecisionExplains(e, p, found, v, t, RowState(true, FenceOf(t[p.key], p.fence)));
    } else if p.key !in t && v.duplicate {
      var i :| 0 <= i < |found| && p.key in found[i];
      assert p.key in now[i];
    }
  }

  lemma InsertExplains(e: Engine, p: Plan, found: seq<Table>, v: Locals, t: Table)
    requires |p.fence| == |p.target| && Explained(e, p, found, AtInsert(v))
    ensures Explained(e, p, found + [t], Step(e, p, AtInsert(v), t).1)
  {
    hide Clashes, Fresh, Denied;
    HappenedStays(e, p, found, v, t);
    assert (found + [t])[|found|] == t;
  }

  lemma RereadExplains(e: Engine, p: Plan, found: seq<Table>, v: Locals, t: Table)
    requires |p.fence| == |p.target| && Explained(e, p, found, AtReread(v))
    ensures Explained(e, p, found + [t], Step(e, p, AtReread(v), t).1)
  {
    hide Clashes, Denied;
    HappenedStays(e, p, found, v.(duplicate := false), t);
    var now, n := found + [t], |found|;
    assert now[n] == t && now[n - 1] == found[n - 1];
    if p.key in t {
      assert Happened(e, p, now, v) by { assert p.key in now[n]; }
      if HasFence(t[p.key], p.fence) {
        DecisionExplains(e, p, found, v, t, RowState(true, FenceOf(t[p.key], p.fence)));
      }
    }
  }

  lemma CompareExplains(e: Engine, p: Plan, found: seq<Table>, v: Locals, state: RowState, t: Table)
    requires |p.fence| == |p.target| && Explained(e, p, found, AtCompare(v, state))
    ensures Explained(e, p, found + [t], Step(e, p, AtCompare(v, state), t).1)
  {
    hide RowMatches, Saw;
    HappenedStays(e, p, found, v, t);
    var now, n := found + [t], |found|;
    assert now[n] == t && now[n - 1] == found[n - 1];
    if !RowMatches(e, p, t) {
      assert Denied(e, p, now, n, state.stored);
      if v.compared == Some(state) {
        var i :| Denied(e, p, found, i, state.stored);
        assert Denied(e, p, now, i, state.stored);
      }
    }
  }

  lemma StepExplains(e: Engine, p: Plan, found: seq<Table>, pc: Pc, t: Table)
    requires |p.fence| == |p.target| && !pc.Finished? && Explained(e, p, found, pc)
    ensures Explained(e, p, found + [t], Step(e, p, pc, t).1)
  {
    hide Explained, Step;
    match pc
    case AtUpdate(v) => UpdateExplains(e, p, found, v, t);
    case AtRead(v) => ReadExplains(e, p, found, v, t);
    case AtInsert(v) => InsertExplains(e, p, found, v, t);
    case AtReread(v) => RereadExplains(e, p, found, v, t);
    case AtCompare(v, state) => CompareExplains(e, p, found, v, state, t);
  }

  // ---------------------------------------------------------------- a session, and any run

  /** A finished session's reply is justified by the tables its statements found. */
  lemma {:induction false} SessionIsExplained(e: Engine, p: Plan, found: seq<Table>, left: seq<Table>)
    requires |p.fence| == |p.target| && Leaves(e, p, START, found, left)
    ensures Explained(e, p, found, Replay(e, p, START, found))
  {
    hide Explained, Step;
    if found == [] {
      assert Explained(e, p, [], START) by { NothingFound(e, p); }
    } else {
      var n := |found| - 1;
      LeavesInit(e, p, START, found, left);
      SessionIsExplained(e, p, found[..n], left[..n]);
      StepExplains(e, p, found[..n], Replay(e, p, START, found[..n]), found[n]);
      assert found[..n] + [found[n]] == found;
    }
  }

  lemma NothingFound(e: Engine, p: Plan)
    requires |p.fence| == |p.target|
    ensures Explained(e, p, [], START)
  {
  }

  lemma {:induction false} LeavesInit(e: Engine, p: Plan, pc: Pc, found: seq<Table>, left: seq<Table>)
    requires |p.fence| == |p.target| && Leaves(e, p, pc, found, left) && found != []
    ensures var n := |found| - 1;
      && |left| == n + 1 && Leaves(e, p, pc, found[..n], left[..n])
      && !Replay(e, p, pc, found[..n]).Finished?
      && Replay(e, p, pc, found) == Step(e, p, Replay(e, p, pc, found[..n]), found[n]).1
    decreases |found|
  {
    hide Step;
    var n := |found| - 1;
    var next := Step(e, p, pc, found[0]).1;
    if n == 0 {
      assert found[1..] == [] && left[1..] == [];
    } else {
      LeavesInit(e, p, next, found[1..], left[1..]);
      assert found[1..][..n - 1] == found[..n][1..] && left[1..][..n - 1] == left[..n][1..];
    }
  }

  /** The events at which a call sent its statements. */
  ghost function Sent(evs: seq<Event>, k: nat, id: nat): (at: seq<nat>)
    requires k <= |evs|
    ensures forall i :: 0 <= i < |at| ==> at[i] < k && evs[at[i]] == Advance(id)
  {
    if k == 0 then [] else Sent(evs, k - 1, id) + if evs[k - 1] == Advance(id) then [k - 1] else []
  }

  lemma {:induction false} SentInOrder(evs: seq<Event>, k: nat, id: nat)
    requires k <= |evs|
    ensures forall i, j :: 0 <= i < j < |Sent(evs, k, id)| ==> Sent(evs, k, id)[i] < Sent(evs, k, id)[j]
  {
    if k > 0 {
      SentInOrder(evs, k - 1, id);
      var before, at := Sent(evs, k - 1, id), Sent(evs, k, id);
      forall i, j | 0 <= i < j < |at| ensures at[i] < at[j] {
        assert at[i] == before[i];
        assert j < |before| ==> at[j] == before[j];
      }
    }
  }

  /** The tables those statements found. */
  ghost function FoundBy(ws: seq<World>, evs: seq<Event>, k: nat, id: nat): (found: seq<Table>)
    requires |ws| == |evs| + 1 && k <= |evs|
    ensures |found| == |Sent(evs, k, id)|
    ensures forall i :: 0 <= i < |found| ==> found[i] == ws[Sent(evs, k, id)[i]].table
  {
    seq(|Sent(evs, k, id)|, i requires 0 <= i < |Sent(evs, k, id)| => ws[Sent(evs, k, id)[i]].table)
  }

  lemma FoundNext(ws: seq<World>, evs: seq<Event>, k: nat, id: nat)
    requires |ws| == |evs| + 1 && k < |evs|
    ensures FoundBy(ws, evs, k + 1, id) == FoundBy(ws, evs, k, id) + if evs[k] == Advance(id) then [ws[k].table] else []
  {
  }

  lemma {:induction false} NoneSentYet(e: Engine, ws: seq<World>, evs: seq<Event>, k: nat, id: nat)
    requires Run(e, ws, evs) && k <= |evs| && id !in ws[k].calls
    ensures Sent(evs, k, id) == []
  {
    if k > 0 {
      assert Follows(e, ws, evs, k - 1);
      NoneSentYet(e, ws, evs, k - 1, id);
    }
  }

  /** In every run every reply a call gives of its own is justified by what its statements found. */
  lemma {:induction false} RepliesAreJustified(e: Engine, ws: seq<World>, evs: seq<Event>, k: nat, id: nat)
    requires Run(e, ws, evs) && k <= |evs| && id in ws[k].calls
    ensures |ws[k].calls[id].plan.fence| == |ws[k].calls[id].plan.target|
    ensures ws[k].calls[id].pc != Finished(Failed) ==>
      Explained(e, ws[k].calls[id].plan, FoundBy(ws, evs, k, id), ws[k].calls[id].pc)
  {
    hide Explained, Step, Sent, FoundBy;
    assert k > 0;
    CallMoves(e, ws, evs, k - 1, id);
    FoundNext(ws, evs, k - 1, id);
    var p := ws[k].calls[id].plan;
    if id in ws[k - 1].calls {
      RepliesAreJustified(e, ws, evs, k - 1, id);
      var found := FoundBy(ws, evs, k - 1, id);
      if evs[k - 1] == Advance(id) {
        StepExplains(e, p, found, ws[k - 1].calls[id].pc, ws[k - 1].table);
      } else {
        assert found + [] == found;
      }
    } else {
      assert Follows(e, ws, evs, k - 1);
      NoneSentYet(e, ws, evs, k - 1, id);
      assert FoundBy(ws, evs, k, id) == [] by { EmptyFound(ws, evs, k - 1, id); }
      NothingFound(e, p);
    }
  }

  lemma EmptyFound(ws: seq<World>, evs: seq<Event>, k: nat, id: nat)
    requires |ws| == |evs| + 1 && k < |evs| && Sent(evs, k, id) == [] && evs[k] != Advance(id)
    ensures FoundBy(ws, evs, k + 1, id) == []
  {
  }

  /** A duplicate-key error means that one of the call's statements found its wanted row in conflict with
      another row, or that the INSERT met its row and the row was deleted before the re-read. */
  lemma DuplicateKeyMeans(e: Engine, ws: seq<World>, evs: seq<Event>, k: nat, id: nat) returns (j: nat, l: nat)
    requires Run(e, ws, evs) && k <= |evs| && id in ws[k].calls && ws[k].calls[id].pc == Finished(DuplicateKey)
    ensures var p := ws[k].calls[id].plan;
      && j <= l < k && evs[j] == Advance(id) && evs[l] == Advance(id)
      && (FoundClash(e, p, ws[j].table) || (p.key in ws[j].table && p.key !in ws[l].table))
  {
    hide FoundClash;
    RepliesAreJustified(e, ws, evs, k, id);
    SentInOrder(evs, k, id);
    var p, found, at := ws[k].calls[id].plan, FoundBy(ws, evs, k, id), Sent(evs, k, id);
    var n := |found| - 1;
    if FoundClash(e, p, found[n]) {
      j, l := at[n], at[n];
    } else {
      assert at[n - 1] < at[n];
      j, l := at[n - 1], at[n];
    }
  }

  /** So where writers keep the fence, nobody deletes and there is no alternate unique key, no call ever
      reports a duplicate key, whoever wins the race to insert. */
  lemma InsertRacesAreResolved(e: Engine, ws: seq<World>, evs: seq<Event>, k: nat, id: nat)
    requires k <= |evs| && |ws| == |evs| + 1 && id in ws[k].calls
    requires Disciplined(e, ws, evs, ws[k].calls[id].plan.fence) && |e.unique| == 0
    ensures ws[k].calls[id].pc != Finished(DuplicateKey)
  {
    if ws[k].calls[id].pc == Finished(DuplicateKey) {
      var p := ws[k].calls[id].plan;
      var j, l := DuplicateKeyMeans(e, ws, evs, k, id);
      if p.key in ws[j].table {
        FencesNeverDecrease(e, ws, evs, p.fence, j, l, p.key);
      }
    }
  }

  /** Either read of the row settles a condition that does not hold at once, and only that. */
  lemma ReadsRejectAtOnce(e: Engine, p: Plan, pc: Pc, t: Table)
    requires |p.fence| == |p.target| && (pc.AtRead? || pc.AtReread?) && p.key in t && HasFence(t[p.key], p.fence)
    ensures var next := Step(e, p, pc, t).1;
      && (p.Fenced() && !p.Holds(FenceOf(t[p.key], p.fence)) ==> next == Finished(SaveRejected(FenceOf(t[p.key], p.fence))))
      && (p.Fenced() && p.Holds(FenceOf(t[p.key], p.fence)) && FenceOf(t[p.key], p.fence) != p.target ==>
            if pc.v.round < 2 then next.AtUpdate? && next.v.round == pc.v.round + 1
            else next == Finished(Race(FenceOf(t[p.key], p.fence))))
      && (!p.Fenced() || (p.Holds(p.target) && FenceOf(t[p.key], p.fence) == p.target) ==>
            next.AtCompare? && next.state == RowState(true, FenceOf(t[p.key], p.fence)))
  {
  }

  /** The fence a race or a mismatch tells is the one its last state query saw. */
  lemma ErrorsTellTheLastFence(e: Engine, ws: seq<World>, evs: seq<Event>, k: nat, id: nat)
    requires Run(e, ws, evs) && k <= |evs| && id in ws[k].calls && ws[k].calls[id].pc.Finished?
    ensures var p, reply, found := ws[k].calls[id].plan, ws[k].calls[id].pc.reply, FoundBy(ws, evs, k, id);
      var n := |found| - 1;
      && (reply.Race? ==> n >= 0 && (Saw(p, found[n], reply.stored)
                                     || (n >= 1 && Saw(p, found[n - 1], reply.stored) && !RowMatches(e, p, found[n]))))
      && (reply.Mismatch? ==> n >= 1 && Saw(p, found[n - 1], reply.stored) && !RowMatches(e, p, found[n])
                              && exists i :: 1 <= i < n && Saw(p, found[i - 1], reply.stored) && !RowMatches(e, p, found[i]))
  {
    hide Saw, RowMatches, FoundBy;
    RepliesAreJustified(e, ws, evs, k, id);
  }
}
