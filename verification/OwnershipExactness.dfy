/** What the ownership verifier rejects: code of the wrong shape, and otherwise only code that has
    an execution which goes wrong. */
module OwnershipExactness {
  import opened Options
  import opened OwnershipVerifier
  import opened OwnershipRuns
  import opened OwnershipSoundness
  import opened OwnershipShape
  import opened OwnershipConformance
  import opened OwnershipNumbers
  import opened OwnershipWitness

  /** A fault, or an owner that nothing after this code can see is still live. */
  ghost predicate Bad(out: Outcome, fence: nat, floor: nat) {
    match out
    case Fault => true
    case NoRun => false
    case Done(live) => exists o :: o in live && fence <= o
    case Gone(_, live) => exists o :: o in live && floor <= o
  }

  lemma StillBad(out: Outcome, fence: nat, floor: nat, o: nat)
    requires !out.NoRun? && Kept(out, o) && fence <= o && floor <= o
    ensures Bad(out, fence, floor)
  {
  }

  predicate Below(seen: set<nat>, n: nat) { forall o :: o in seen ==> o < n }

  function FloorOf(active: Option<ActiveLoop>): nat { if active.Some? then active.value.floor else 0 }

  ghost predicate UntouchedAny(st: State, active: Option<ActiveLoop>) {
    active.Some? ==> Untouched(st, active.value)
  }

  /** The code discharges no owner from before the loop around it. */
  ghost predicate SpendsOwn(ops: Ops, active: Option<ActiveLoop>) {
    forall o: nat :: Spends(ops, o) ==> FloorOf(active) <= o
  }

  // ---------- Operations

  lemma {:induction false} DischargeAllIff(st: State, os: seq<nat>, live: set<nat>)
    requires Agrees(st, live)
    ensures DischargeAll(st, os).Some? <==> Remove(live, os).Some?
    decreases |os|
  {
    if os != [] && os[0] in live {
      DischargeAgrees(st, os[0], live);
      DischargeAllIff(Discharge(st, os[0]).value, os[1..], live - {os[0]});
    }
  }

  lemma {:induction false} ConsumeAllIff(st: State, os: seq<nat>, floor: Option<nat>, live: set<nat>)
    requires Agrees(st, live) && forall i :: 0 <= i < |os| ==> Movable(st, os[i], floor)
    ensures ConsumeAll(st, os, floor).Some? <==> Remove(live, os).Some?
    decreases |os|
  {
    if os != [] && os[0] in live {
      var next := Discharge(st, os[0]).value;
      DischargeAgrees(st, os[0], live);
      assert forall i :: 0 <= i < |os| - 1 ==> os[1..][i] == os[i + 1];
      assert forall o :: Movable(next, o, floor) <==> Movable(st, o, floor);
      ConsumeAllIff(next, os[1..], floor, live - {os[0]});
    }
  }

  lemma PlainIff(op: Op, st: State, live: set<nat>)
    requires !op.Join? && !op.Loop? && Agrees(st, live)
    ensures Step(op, st).Some? <==> RunPlain(op, live).Done? && Consecutive(Made(op), End(st))
    ensures Ends(RunPlain(op, live))
  {
    match op
    case Define(borrowed, consumed, result) =>
      DischargeAllIff(st, consumed, live);
      if DischargeAll(st, consumed).Some? {
        DischargeAllAgrees(st, consumed, live);
        DischargeAllChecks(st, consumed);
        var next, left := DischargeAll(st, consumed).value, Remove(live, consumed).value;
        assert AllActive(next, borrowed) <==> AllLive(left, borrowed);
        if result.Some? {
          OneOwner(left, result.value);
          assert !Active(next, End(next));
        }
      }
    case Acquire(source, owner) =>
      OneOwner(live, owner);
      assert !Active(st, End(st));
    case Drop(owner) => OneOwner(live, owner);
  }

  lemma {:induction false} LocalsRejected(steps: seq<Local>, st: State, seen: set<nat>, live: set<nat>)
    requires Agrees(st, live) && LocalsShaped(steps, seen, st.first, End(st)) && LocalSteps(steps, st).None?
    ensures RunLocals(steps, live).Fault?
    decreases |steps|
  {
    var op := AsOp(steps[0]);
    PlainIff(op, st, live);
    if Step(op, st).Some? {
      PlainAgrees(op, st, live);
      StepSees(op, st, live);
      LocalsRejected(steps[1..], Step(op, st).value, Plus(seen, Made(op)), RunPlain(op, live).live);
    }
  }

  lemma {:induction false} AcquisitionsRejected(acquisitions: seq<Acquisition>, st: State, seen: set<nat>, live: set<nat>)
    requires Agrees(st, live) && AcquisitionsShaped(acquisitions, seen, End(st)) && AcquireAll(acquisitions, st).None?
    ensures RunAcquisitions(acquisitions, live).Fault?
    decreases |acquisitions|
  {
    var op := Acquire(acquisitions[0].source, acquisitions[0].owner);
    PlainIff(op, st, live);
    if Step(op, st).Some? {
      PlainAgrees(op, st, live);
      StepSees(op, st, live);
      AcquisitionsRejected(acquisitions[1..], Step(op, st).value, seen + {End(st)}, RunPlain(op, live).live);
    }
  }

  lemma StepUntouched(op: Op, st: State, active: Option<ActiveLoop>)
    requires Sound(st) && WithinAny(st, active) && UntouchedAny(st, active) && Step(op, st).Some?
    requires forall i :: 0 <= i < |Spent(op)| ==> FloorOf(active) <= Spent(op)[i]
    ensures UntouchedAny(Step(op, st).value, active)
  {
    StepMoves(op, st);
    if active.Some? {
      var loop, pre := active.value, DischargeAll(st, Spent(op)).value;
      forall o: nat | Find(Captured(loop.pre), o) == Some(true) && o !in loop.pre.discharged
        ensures o !in pre.discharged
      {
        FindAppend(loop.pre.enclosing, Scope(loop.pre.first, loop.pre.owners), o);
        DischargeAllFlags(st, Spent(op), o);
      }
      DischargeAllChecks(st, Spent(op));
      IntroduceAllChecks(pre, Made(op));
    }
  }

  /** Something that this block made is left. */
  lemma OneLeft(done: State, live: set<nat>) returns (o: nat)
    requires Agrees(done, live) && !Complete(done)
    ensures o in live && done.first <= o
  {
    var i :| 0 <= i < |done.owners| && done.owners[i];
    o := done.first + i;
    assert Find(done.enclosing, o).None?;
    assert Active(done, o);
  }

  // ---------- Selections

  lemma EdgeRejected(selection: Selection, e: nat, inputs: seq<nat>, st: State, seen: set<nat>, at: nat, live: set<nat>)
    returns (o: nat)
    requires Agrees(st, live) && End(st) <= at && e < |selection.edges|
    requires EdgeShaped(selection.edges[e], |inputs|, seen, at)
    requires VerifyEdge(selection.edges[e], |inputs|, Enter(st, at)).None?
    ensures Kept(RunEdge(selection, e, inputs, live), o) && at <= o
    ensures RunEdge(selection, e, inputs, live).Done? ==> o !in inputs
  {
    var edge, initial := selection.edges[e], Enter(st, at);
    o := at;
    EnterAgrees(st, at, live);
    if LocalSteps(edge.steps, initial).None? {
      LocalsRejected(edge.steps, initial, seen, live);
    } else if LiveSource(live, selection.scrutinee) {
      LocalsAgree(edge.steps, initial, live);
      var local, left := LocalSteps(edge.steps, initial).value, RunLocals(edge.steps, live).live;
      assert forall i :: 0 <= i < |edge.transfers| ==> Movable(local, edge.transfers[i], None);
      ConsumeAllIff(local, edge.transfers, None, left);
      if Remove(left, edge.transfers).Some? {
        ConsumeAllAgrees(local, edge.transfers, None, left);
        var rest := Remove(left, edge.transfers).value;
        o := OneLeft(ConsumeAll(local, edge.transfers, None).value, rest);
        if Add(rest, inputs).Some? {
          AddKeeps(rest, inputs, o);
        }
      }
    }
  }

  /** One of the edges from `from` on, numbered from `cursor` on, is rejected. */
  lemma {:induction false} EdgesRejected(selection: Selection, from: nat, inputs: seq<seq<nat>>, st: State, seen: set<nat>,
                                         cursor: nat, live: set<nat>)
    returns (e: nat, o: nat)
    requires Agrees(st, live) && End(st) <= cursor && from <= |selection.edges|
    requires EdgesShaped(selection.edges[from..], inputs, seen, cursor)
    requires VerifyEdges(selection.edges[from..], inputs, st, cursor).None?
    ensures e < |selection.edges| && selection.edges[e].arm < |inputs| && cursor <= o
    ensures var entered := inputs[selection.edges[e].arm];
            var out := RunEdge(selection, e, entered, live);
            Kept(out, o) && (out.Done? ==> o !in entered)
    decreases |selection.edges| - from
  {
    var edges := selection.edges[from..];
    assert edges[0] == selection.edges[from] && edges[1..] == selection.edges[from + 1..];
    if VerifyEdge(edges[0], |inputs[edges[0].arm]|, Enter(st, cursor)).None? {
      e := from;
      o := EdgeRejected(selection, e, inputs[edges[0].arm], st, seen, cursor, live);
    } else {
      EdgeCounts(edges[0], |inputs[edges[0].arm]|, st, cursor);
      e, o := EdgesRejected(selection, from + 1, inputs, st, seen, cursor + LocalsCount(edges[0].steps), live);
    }
  }

  /** A scrutinee that is not live. */
  lemma {:induction false} ArmsFault(arms: Arms, k: nat, selection: Selection, pick: Pick, outputs: seq<nat>, live: set<nat>)
    requires pick.Through? && pick.edge < |selection.edges| && k < |Inputs(arms)| && !LiveSource(live, selection.scrutinee)
    ensures RunArms(arms, k, selection, pick, outputs, live).Fault?
  {
    if k > 0 {
      ArmsFault(arms.others, k - 1, selection, pick, outputs, live);
    }
  }

  /** An owner that the edge leaves behind stays through the arm. */
  lemma {:induction false} ArmsKeep(arms: Arms, k: nat, selection: Selection, pick: Pick, entering: seq<nat>,
                                    outputs: seq<nat>, seen: set<nat>, around: Option<Around>, n: nat,
                                    live: set<nat>, o: nat)
    requires ArmsShaped(arms, entering, |outputs|, seen, around, n) && o !in seen
    requires pick.Through? && pick.edge < |selection.edges| && k < |Inputs(arms)|
    requires var out := RunEdge(selection, pick.edge, Inputs(arms)[k], live);
             Kept(out, o) && (out.Done? ==> o !in Inputs(arms)[k])
    ensures Kept(RunArms(arms, k, selection, pick, outputs, live), o)
  {
    if k > 0 {
      ArmsKeep(arms.others, k - 1, selection, pick, entering, outputs, seen, around, n + ArmCount(arms), live, o);
    } else {
      EdgeEnds(selection, pick.edge, arms.inputs, live);
      var out := RunEdge(selection, pick.edge, arms.inputs, live);
      if out.Done? {
        ArmFrame(arms, pick, entering, outputs, Plus(seen, arms.inputs), around, n, n + |arms.inputs|, out.live, o);
      }
    }
  }

  lemma {:induction false} LoopArmsFault(arms: LoopArms, k: nat, selection: Selection, pick: TailPick, live: set<nat>)
    requires pick.Into? && pick.edge < |selection.edges| && k < |LoopInputs(arms)| && !LiveSource(live, selection.scrutinee)
    ensures RunLoopArms(arms, k, selection, pick, live).Fault?
  {
    if k > 0 {
      LoopArmsFault(arms.others, k - 1, selection, pick, live);
    }
  }

  lemma {:induction false} LoopArmsKeep(arms: LoopArms, k: nat, selection: Selection, pick: TailPick, seen: set<nat>,
                                        around: Around, n: nat, live: set<nat>, o: nat)
    requires LoopArmsShaped(arms, seen, around, n) && o !in seen
    requires pick.Into? && pick.edge < |selection.edges| && k < |LoopInputs(arms)|
    requires var out := RunEdge(selection, pick.edge, LoopInputs(arms)[k], live);
             Kept(out, o) && (out.Done? ==> o !in LoopInputs(arms)[k])
    ensures Kept(RunLoopArms(arms, k, selection, pick, live), o)
  {
    if k > 0 {
      LoopArmsKeep(arms.others, k - 1, selection, pick, seen, around, n + |arms.inputs| + BlockCount(arms.body), live, o);
    } else {
      EdgeEnds(selection, pick.edge, arms.inputs, live);
      var out := RunEdge(selection, pick.edge, arms.inputs, live);
      if out.Done? {
        BlockFrame(arms.body, pick.inside, pick.tail, Plus(seen, arms.inputs), around, n + |arms.inputs|, out.live, o);
      }
    }
  }

  // ---------- Blocks

  lemma PlusBelow(seen: set<nat>, os: seq<nat>, n: nat)
    requires Below(seen, n) && Consecutive(os, n)
    ensures Below(Plus(seen, os), n + |os|)
  {
  }

  lemma {:induction false} SeenBelow(ops: Ops, seen: set<nat>, n: nat)
    requires Below(seen, n) && InOrder(ops, n)
    ensures Below(SeenAfter(ops, seen), n + OwnCount(ops))
    decreases ops
  {
    if ops.Cons? {
      PlusBelow(seen, Made(ops.head), n);
      SeenBelow(ops.tail, Plus(seen, Made(ops.head)), n + |Made(ops.head)|);
    }
  }

  /** A state that the verifier reached, and what is live there. */
  ghost predicate Reached(st: State, active: Option<ActiveLoop>, live: set<nat>) {
    Agrees(st, live) && WithinAny(st, active) && UntouchedAny(st, active)
  }

  /** A block's operations are rejected. */
  ghost predicate OpsFail(ops: Ops, st: State, active: Option<ActiveLoop>, cursor: nat) {
    Steps(ops, st).None? || VerifyNested(ops, st, active, cursor).None?
  }

  ghost predicate OpFails(op: Op, st: State, active: Option<ActiveLoop>, cursor: nat) {
    Step(op, st).None? || VerifyControl(op, st, active, cursor).None?
  }

  /** Nested code of a block starts at `cursor`, beyond all that the block can ever see. */
  lemma {:induction false} OpsRejected(ops: Ops, st: State, active: Option<ActiveLoop>, seen: set<nat>, fence: nat, cursor: nat,
                                       live: set<nat>)
    returns (picks: seq<Pick>)
    requires Reached(st, active, live) && Below(seen, End(st)) && InOrder(ops, End(st)) && SpendsOwn(ops, active)
    requires End(st) + OwnCount(ops) <= fence <= cursor
    requires OpsShaped(ops, seen, CodeOf(active), cursor) && LoopsEnd(ops) && OpsFail(ops, st, active, cursor)
    ensures Bad(RunOps(ops, picks, live), fence, FloorOf(active))
    decreases ops, 0, 0
  {
    var op, later := ops.head, Plus(seen, Made(ops.head));
    SpendsHead(ops, active);
    if OpFails(op, st, active, cursor) {
      var pick := OpRejected(op, st, active, seen, fence, cursor, live);
      picks := [pick];
      var out := RunOp(op, pick, live);
      if out.Done? {
        var o :| o in out.live && fence <= o;
        picks := OpsLeak(ops, pick, st, seen, CodeOf(active), cursor, fence, FloorOf(active), live, o);
      }
    } else {
      var pick, next, after, left := OpPassed(op, st, active, seen, cursor, live);
      OpsNext(ops, st, next, active, seen, later, cursor, after);
      var more := OpsRejected(ops.tail, next, active, later, fence, after, left);
      picks := [pick] + more;
      assert picks[1..] == more;
    }
  }

  /** What holds of the operations behind an accepted one. */
  lemma OpsNext(ops: Ops, st: State, next: State, active: Option<ActiveLoop>, seen: set<nat>, later: set<nat>, cursor: nat,
                after: nat)
    requires ops.Cons? && Below(seen, End(st)) && InOrder(ops, End(st)) && OpsShaped(ops, seen, CodeOf(active), cursor)
    requires Step(ops.head, st) == Some(next) && VerifyControl(ops.head, st, active, cursor) == Some(after)
    requires later == Plus(seen, Made(ops.head)) && after == cursor + NestedIn(ops.head) && OpsFail(ops, st, active, cursor)
    ensures Below(later, End(next)) && InOrder(ops.tail, End(next)) && OpsShaped(ops.tail, later, CodeOf(active), after)
    ensures End(next) + OwnCount(ops.tail) == End(st) + OwnCount(ops) && OpsFail(ops.tail, next, active, after)
  {
    StepCounts(ops.head, st);
    PlusBelow(seen, Made(ops.head), End(st));
  }

  /** An operation that the verifier accepts can be run, and then it goes on. */
  lemma OpPassed(op: Op, st: State, active: Option<ActiveLoop>, seen: set<nat>, cursor: nat, live: set<nat>)
    returns (pick: Pick, next: State, after: nat, left: set<nat>)
    requires Reached(st, active, live) && End(st) + |Made(op)| <= cursor
    requires forall i :: 0 <= i < |Spent(op)| ==> FloorOf(active) <= Spent(op)[i]
    requires OpShaped(op, seen, CodeOf(active), cursor) && LoopsEndIn(op) && !OpFails(op, st, active, cursor)
    ensures RunOp(op, pick, live) == Done(left) && Step(op, st) == Some(next) && Reached(next, active, left)
    ensures VerifyControl(op, st, active, cursor) == Some(after) && after == cursor + NestedIn(op)
  {
    next, after := Step(op, st).value, VerifyControl(op, st, active, cursor).value;
    StepCounts(op, st);
    StepWithin(op, st, active);
    StepUntouched(op, st, active);
    ControlCounts(op, st, active, cursor);
    pick := OpEnds(op, seen, CodeOf(active), cursor, live);
    OpSound(op, st, active, cursor, pick, live);
    left := RunOp(op, pick, live).live;
  }

  lemma SpendsHead(ops: Ops, active: Option<ActiveLoop>)
    requires ops.Cons? && SpendsOwn(ops, active)
    ensures SpendsOwn(ops.tail, active)
    ensures forall i :: 0 <= i < |Spent(ops.head)| ==> FloorOf(active) <= Spent(ops.head)[i]
  {
    forall o: nat | Spends(ops.tail, o)
      ensures FloorOf(active) <= o
    {
      assert Spends(ops, o);
    }
    forall i | 0 <= i < |Spent(ops.head)|
      ensures FloorOf(active) <= Spent(ops.head)[i]
    {
      assert Spends(ops, Spent(ops.head)[i]);
    }
  }

  lemma OpsLeak(ops: Ops, pick: Pick, st: State, seen: set<nat>, around: Option<Around>, cursor: nat, fence: nat, floor: nat,
                live: set<nat>, o: nat)
    returns (picks: seq<Pick>)
    requires ops.Cons? && OpsShaped(ops, seen, around, cursor) && LoopsEnd(ops) && InOrder(ops, End(st)) && Below(seen, End(st))
    requires End(st) + OwnCount(ops) <= fence <= o && floor <= o && RunOp(ops.head, pick, live).Done?
    requires o in RunOp(ops.head, pick, live).live
    ensures Bad(RunOps(ops, picks, live), fence, floor)
  {
    var later, after, left := Plus(seen, Made(ops.head)), cursor + NestedIn(ops.head), RunOp(ops.head, pick, live).live;
    PlusBelow(seen, Made(ops.head), End(st));
    var more := OpsEnd(ops.tail, later, around, after, left);
    OpsFrame(ops.tail, more, later, around, after, left, o);
    picks := [pick] + more;
    assert picks[1..] == more;
    StillBad(RunOps(ops, picks, live), fence, floor, o);
  }

  lemma {:induction false} OpRejected(op: Op, st: State, active: Option<ActiveLoop>, seen: set<nat>, fence: nat, cursor: nat,
                                      live: set<nat>)
    returns (pick: Pick)
    requires Reached(st, active, live) && Below(seen, End(st)) && Consecutive(Made(op), End(st))
    requires forall i :: 0 <= i < |Spent(op)| ==> FloorOf(active) <= Spent(op)[i]
    requires End(st) + |Made(op)| <= fence <= cursor
    requires OpShaped(op, seen, CodeOf(active), cursor) && LoopsEndIn(op) && OpFails(op, st, active, cursor)
    ensures Bad(RunOp(op, pick, live), fence, FloorOf(active))
    decreases op, 2, 0
  {
    if op.Join? {
      pick := JoinRejected(op, st, active, seen, fence, cursor, live);
    } else if op.Loop? {
      pick := LoopRejected(op, st, active, seen, fence, cursor, live);
    } else {
      PlainIff(op, st, live);
      pick := Straight;
    }
  }

  lemma {:induction false} JoinRejected(op: Op, st: State, active: Option<ActiveLoop>, seen: set<nat>, fence: nat, cursor: nat,
                                        live: set<nat>)
    returns (pick: Pick)
    requires op.Join? && Reached(st, active, live) && Below(seen, End(st)) && Consecutive(Made(op), End(st))
    requires forall i :: 0 <= i < |Spent(op)| ==> FloorOf(active) <= Spent(op)[i]
    requires End(st) + |Made(op)| <= fence <= cursor
    requires OpShaped(op, seen, CodeOf(active), cursor) && LoopsEndIn(op) && OpFails(op, st, active, cursor)
    ensures Bad(RunOp(op, pick, live), fence, FloorOf(active))
    decreases op, 1, 0
  {
    var selection := op.selection;
    var inputs, start := JoinParts(op, seen, CodeOf(active), cursor);
    if !ActiveSource(st, selection.scrutinee) {
      pick := Through(0, [], AtEdge);
      assert selection.edges[0].arm < |inputs|;
      ArmsFault(op.arms, selection.edges[0].arm, selection, pick, op.outputs, live);
    } else if VerifyEdges(selection.edges, inputs, st, cursor).None? {
      pick := JoinEdgeRejected(op, inputs, start, seen, CodeOf(active), st, fence, FloorOf(active), cursor, live);
    } else {
      JoinArmsFail(op, inputs, start, st, active, seen, cursor, live);
      pick := JoinArmsRejected(op, inputs, start, st, active, seen, fence, cursor, live);
    }
  }

  lemma JoinParts(op: Op, seen: set<nat>, around: Option<Around>, n: nat) returns (inputs: seq<seq<nat>>, start: nat)
    requires op.Join? && OpShaped(op, seen, around, n)
    ensures HasYield(op.arms) && Distinct(op.entering) && Visible(seen, op.entering) && Reaches(op.selection, |inputs|)
    ensures inputs == Inputs(op.arms) && start == n + EdgesCount(op.selection.edges)
    ensures Connected(op.selection, |inputs|) && EdgesShaped(op.selection.edges, inputs, seen, n)
    ensures ArmsShaped(op.arms, op.entering, |op.outputs|, seen, around, start)
  {
    inputs, start := Inputs(op.arms), n + EdgesCount(op.selection.edges);
    HasYieldIff(op.arms);
    ConnectedReaches(op.selection, |inputs|);
  }

  lemma JoinEdgeRejected(op: Op, inputs: seq<seq<nat>>, start: nat, seen: set<nat>, around: Option<Around>, st: State,
                         fence: nat, floor: nat, cursor: nat, live: set<nat>)
    returns (pick: Pick)
    requires op.Join? && Agrees(st, live) && Below(seen, cursor) && End(st) <= cursor && fence <= cursor && floor <= cursor
    requires inputs == Inputs(op.arms) && EdgesShaped(op.selection.edges, inputs, seen, cursor) && LoopsEndIn(op)
    requires ArmsShaped(op.arms, op.entering, |op.outputs|, seen, around, start)
    requires VerifyEdges(op.selection.edges, inputs, st, cursor).None?
    ensures Bad(RunOp(op, pick, live), fence, floor)
  {
    assert op.selection.edges[0..] == op.selection.edges;
    var e, o := EdgesRejected(op.selection, 0, inputs, st, seen, cursor, live);
    var k := op.selection.edges[e].arm;
    var inside, tail := ArmsEnd(op.arms, k, op.selection, e, op.entering, op.outputs, seen, around, start, live);
    pick := Through(e, inside, tail);
    ArmsKeep(op.arms, k, op.selection, pick, op.entering, op.outputs, seen, around, start, live, o);
    StillBad(RunOp(op, pick, live), fence, floor, o);
  }

  /** A rejected join whose selection is accepted has a rejected arm: if all arms are accepted, the
      entering owners are live. */
  lemma JoinArmsFail(op: Op, inputs: seq<seq<nat>>, start: nat, st: State, active: Option<ActiveLoop>, seen: set<nat>,
                     cursor: nat, live: set<nat>)
    requires op.Join? && Reached(st, active, live) && Below(seen, End(st)) && Consecutive(Made(op), End(st)) && End(st) <= cursor
    requires inputs == Inputs(op.arms) && start == cursor + EdgesCount(op.selection.edges)
    requires HasYield(op.arms) && Distinct(op.entering) && Visible(seen, op.entering) && Connected(op.selection, |inputs|)
    requires ArmsShaped(op.arms, op.entering, |op.outputs|, seen, CodeOf(active), start) && OpFails(op, st, active, cursor)
    requires ActiveSource(st, op.selection.scrutinee) && VerifyEdges(op.selection.edges, inputs, st, cursor).Some?
    ensures VerifyArms(op.arms, op.entering, |op.outputs|, st, active, start).None?
  {
    EdgesCounts(op.selection.edges, inputs, st, cursor);
    if VerifyArms(op.arms, op.entering, |op.outputs|, st, active, start).Some? {
      ArmsFindEntering(op.arms, op.entering, |op.outputs|, st, active, seen, start, live);
      JoinSteps(op, st);
    }
  }

  lemma {:induction false} JoinArmsRejected(op: Op, inputs: seq<seq<nat>>, start: nat, st: State, active: Option<ActiveLoop>,
                                            seen: set<nat>, fence: nat, cursor: nat, live: set<nat>)
    returns (pick: Pick)
    requires op.Join? && Reached(st, active, live) && Below(seen, End(st)) && End(st) <= fence <= cursor <= start
    requires forall i :: 0 <= i < |op.entering| ==> FloorOf(active) <= op.entering[i]
    requires inputs == Inputs(op.arms) && Visible(seen, op.entering) && Reaches(op.selection, |inputs|)
    requires ArmsShaped(op.arms, op.entering, |op.outputs|, seen, CodeOf(active), start) && LoopsEndIn(op)
    requires ActiveSource(st, op.selection.scrutinee) && VerifyEdges(op.selection.edges, inputs, st, cursor).Some?
    requires VerifyArms(op.arms, op.entering, |op.outputs|, st, active, start).None?
    ensures Bad(RunOp(op, pick, live), fence, FloorOf(active))
    decreases op, 0, 0
  {
    assert inputs[0..] == inputs;
    var e, inside, tail := ArmsRejected(op.arms, 0, op.selection, inputs, op.entering, op.outputs, st, active, seen, fence,
                                        cursor, start, live);
    pick := Through(e, inside, tail);
  }

  lemma JoinSteps(op: Op, st: State)
    requires op.Join? && Sound(st) && ActiveSource(st, op.selection.scrutinee) && HasYield(op.arms)
    requires AllActive(st, op.entering) && Distinct(op.entering) && Consecutive(op.outputs, End(st))
    ensures Step(op, st).Some?
  {
    DischargeAllChecks(st, op.entering);
    IntroduceAllChecks(DischargeAll(st, op.entering).value, op.outputs);
  }

  /** What a yielding arm spends of the owners around is live there, and that is what enters. */
  lemma YieldFindsEntering(arms: Arms, entering: seq<nat>, outputs: nat, st: State, start: State, active: Option<ActiveLoop>,
                           seen: set<nat>, n: nat, live: set<nat>)
    requires arms.Yielding? && Agrees(st, live) && End(st) <= n && IntroduceAll(Enter(st, n), arms.inputs) == Some(start)
    requires ArmShaped(arms, entering, outputs, seen, CodeOf(active), n, n + |arms.inputs|)
    requires VerifyArm(arms, entering, outputs, st, start, active).Some?
    requires forall i :: 0 <= i < |entering| ==> entering[i] < n
    ensures AllActive(st, entering)
  {
    EnterSound(st, n);
    IntroduceAllChecks(Enter(st, n), arms.inputs);
    forall i | 0 <= i < |entering|
      ensures Active(st, entering[i])
    {
      assert entering[i] in entering;
      StepsFlag(arms.ops, start, entering[i]);
      assert Active(Enter(st, n), entering[i]);
    }
  }

  lemma {:induction false} ArmsFindEntering(arms: Arms, entering: seq<nat>, outputs: nat, st: State, active: Option<ActiveLoop>,
                                            seen: set<nat>, n: nat, live: set<nat>)
    requires Agrees(st, live) && WithinAny(st, active) && End(st) <= n && HasYield(arms)
    requires forall i :: 0 <= i < |entering| ==> entering[i] < n
    requires ArmsShaped(arms, entering, outputs, seen, CodeOf(active), n)
    requires VerifyArms(arms, entering, outputs, st, active, n).Some?
    ensures AllActive(st, entering)
    decreases arms
  {
    if arms.Yielding? {
      var start := IntroduceAll(Enter(st, n), arms.inputs).value;
      YieldFindsEntering(arms, entering, outputs, st, start, active, Plus(seen, arms.inputs), n, live);
    } else {
      var start := IntroduceAll(Enter(st, n), arms.inputs).value;
      IntroduceAllCounts(Enter(st, n), arms.inputs);
      ArmCounts(arms, entering, outputs, st, start, active, n);
      ArmsFindEntering(arms.others, entering, outputs, st, active, seen, n + ArmCount(arms), live);
    }
  }

  /** An accepted edge into arm k. */
  lemma EdgeInto(selection: Selection, k: nat, inputs: seq<seq<nat>>, st: State, cursor: nat, n: nat, start: State,
                 live: set<nat>)
    returns (e: nat, entered: set<nat>)
    requires Agrees(st, live) && ActiveSource(st, selection.scrutinee) && VerifyEdges(selection.edges, inputs, st, cursor).Some?
    requires End(st) <= cursor && End(st) <= n && k < |inputs| && k in Targets(selection)
    requires IntroduceAll(Enter(st, n), inputs[k]) == Some(start)
    ensures e < |selection.edges| && selection.edges[e].arm == k
    ensures RunEdge(selection, e, inputs[k], live) == Done(entered) && Agrees(start, entered)
  {
    e :| e < |selection.edges| && selection.edges[e].arm == k;
    var at := EdgeAt(selection.edges, inputs, st, cursor, e);
    ArmEntered(selection, e, inputs[k], st, at, n, live);
    entered := RunEdge(selection, e, inputs[k], live).live;
  }

  /** Some arm of those from `offset` on is rejected; an edge that leads there leads to the fault. */
  lemma {:induction false} ArmsRejected(arms: Arms, offset: nat, selection: Selection, inputs: seq<seq<nat>>, entering: seq<nat>,
                                        outputs: seq<nat>, st: State, active: Option<ActiveLoop>, seen: set<nat>, fence: nat,
                                        cursor: nat, n: nat, live: set<nat>)
    returns (e: nat, inside: seq<Pick>, tail: TailPick)
    requires Reached(st, active, live) && Below(seen, End(st)) && End(st) <= fence <= cursor && fence <= n
    requires forall i :: 0 <= i < |entering| ==> FloorOf(active) <= entering[i] < End(st)
    requires ArmsShaped(arms, entering, |outputs|, seen, CodeOf(active), n) && LoopsEndInArms(arms)
    requires ActiveSource(st, selection.scrutinee) && VerifyEdges(selection.edges, inputs, st, cursor).Some?
    requires offset <= |inputs| && inputs[offset..] == Inputs(arms)
    requires forall j :: offset <= j < |inputs| ==> j in Targets(selection)
    requires VerifyArms(arms, entering, |outputs|, st, active, n).None?
    ensures e < |selection.edges| && offset <= selection.edges[e].arm < |inputs|
    ensures Bad(RunArms(arms, selection.edges[e].arm - offset, selection, Through(e, inside, tail), outputs, live),
                fence, FloorOf(active))
    decreases arms, 1, 0
  {
    var start := ArmIntroduced(arms.inputs, st, n);
    assert inputs[offset] == arms.inputs;
    if VerifyArm(arms, entering, |outputs|, st, start, active).None? {
      var entered;
      e, entered := EdgeInto(selection, offset, inputs, st, cursor, n, start, live);
      inside, tail := ArmRejected(arms, e, entering, outputs, st, start, active, seen, fence, n, entered);
      TakeArm(arms, selection, Through(e, inside, tail), outputs, live, entered);
    } else {
      var after := ArmsNext(arms, entering, |outputs|, st, start, active, seen, n);
      assert inputs[offset + 1..] == inputs[offset..][1..];
      e, inside, tail := ArmsRejected(arms.others, offset + 1, selection, inputs, entering, outputs, st, active, seen, fence,
                                      cursor, after, live);
      SkipArm(arms, selection.edges[e].arm - offset, selection, Through(e, inside, tail), outputs, live);
    }
  }

  lemma ArmIntroduced(inputs: seq<nat>, st: State, n: nat) returns (start: State)
    requires Sound(st) && End(st) <= n && Consecutive(inputs, n)
    ensures IntroduceAll(Enter(st, n), inputs) == Some(start)
  {
    EnterSound(st, n);
    IntroduceAllChecks(Enter(st, n), inputs);
    start := IntroduceAll(Enter(st, n), inputs).value;
  }

  lemma ArmsNext(arms: Arms, entering: seq<nat>, outputs: nat, st: State, start: State, active: Option<ActiveLoop>,
                 seen: set<nat>, n: nat)
    returns (after: nat)
    requires !arms.NoArms? && ArmsShaped(arms, entering, outputs, seen, CodeOf(active), n)
    requires IntroduceAll(Enter(st, n), arms.inputs) == Some(start)
    requires VerifyArm(arms, entering, outputs, st, start, active).Some?
    requires VerifyArms(arms, entering, outputs, st, active, n).None?
    ensures n <= after && ArmsShaped(arms.others, entering, outputs, seen, CodeOf(active), after)
    ensures VerifyArms(arms.others, entering, outputs, st, active, after).None?
  {
    IntroduceAllCounts(Enter(st, n), arms.inputs);
    ArmCounts(arms, entering, outputs, st, start, active, n);
    after := VerifyArm(arms, entering, outputs, st, start, active).value;
  }

  lemma TakeArm(arms: Arms, selection: Selection, pick: Pick, outputs: seq<nat>, live: set<nat>, entered: set<nat>)
    requires !arms.NoArms? && pick.Through? && pick.edge < |selection.edges|
    requires RunEdge(selection, pick.edge, arms.inputs, live) == Done(entered)
    ensures RunArms(arms, 0, selection, pick, outputs, live) == RunArm(arms, pick, outputs, entered)
  {
  }

  lemma SkipArm(arms: Arms, k: nat, selection: Selection, pick: Pick, outputs: seq<nat>, live: set<nat>)
    requires !arms.NoArms? && k > 0 && pick.Through? && pick.edge < |selection.edges|
    ensures RunArms(arms, k, selection, pick, outputs, live) == RunArms(arms.others, k - 1, selection, pick, outputs, live)
  {
  }

  lemma {:induction false} ArmRejected(arms: Arms, e: nat, entering: seq<nat>, outputs: seq<nat>, st: State, start: State,
                                       active: Option<ActiveLoop>, seen: set<nat>, fence: nat, n: nat, live: set<nat>)
    returns (inside: seq<Pick>, tail: TailPick)
    requires !arms.NoArms? && Sound(st) && Below(seen, End(st)) && End(st) <= fence <= n && Agrees(start, live)
    requires WithinAny(st, active) && UntouchedAny(st, active)
    requires IntroduceAll(Enter(st, n), arms.inputs) == Some(start)
    requires forall i :: 0 <= i < |entering| ==> FloorOf(active) <= entering[i] < End(st)
    requires ArmsShaped(arms, entering, |outputs|, seen, CodeOf(active), n) && LoopsEndInArms(arms)
    requires VerifyArm(arms, entering, |outputs|, st, start, active).None?
    ensures Bad(RunArm(arms, Through(e, inside, tail), outputs, live), fence, FloorOf(active))
    decreases arms, 0, 0
  {
    EnterSound(st, n);
    EnterWithinAny(st, n, active);
    IntroduceAllChecks(Enter(st, n), arms.inputs);
    PlusBelow(seen, arms.inputs, n);
    tail := AtEdge;
    if arms.Yielding? {
      inside := YieldRejected(arms.ops, arms.transfers, entering, outputs, st, start, active, Plus(seen, arms.inputs), fence, live);
    } else {
      inside, tail := BlockRejected(arms.body, active.value, start, Plus(seen, arms.inputs), live);
    }
  }

  /** The arm's own owners are numbered from `start.first` on, and `fence` is no further. */
  lemma {:induction false} YieldRejected(ops: Ops, transfers: seq<nat>, entering: seq<nat>, outputs: seq<nat>, st: State,
                                         start: State, active: Option<ActiveLoop>, seen: set<nat>, fence: nat, live: set<nat>)
    returns (picks: seq<Pick>)
    requires Sound(st) && Reached(start, active, live) && Below(seen, End(start)) && fence <= start.first
    requires start.enclosing == Captured(st) && start.discharged == st.discharged && End(st) <= start.first
    requires forall i :: 0 <= i < |entering| ==> FloorOf(active) <= entering[i]
    requires YieldShaped(ops, transfers, entering, |outputs|, seen, CodeOf(active), start.first, End(start)) && LoopsEnd(ops)
    requires VerifyYield(ops, transfers, entering, |outputs|, st, start, active).None?
    ensures var out := RunOps(ops, picks, live);
            Bad(if out.Done? then Move(out.live, transfers, outputs) else out, fence, FloorOf(active))
    decreases ops, 1, 0
  {
    var inner := End(start) + OwnCount(ops);
    YieldSpends(ops, entering, start, active);
    if OpsFail(ops, start, active, inner) {
      picks := OpsRejected(ops, start, active, seen, inner, inner, live);
      SeenBelow(ops, seen, End(start));
      YieldLeak(RunOps(ops, picks, live), transfers, outputs, SeenAfter(ops, seen), inner, fence, FloorOf(active));
    } else {
      picks := OpsEnd(ops, seen, CodeOf(active), inner, live);
      YieldEndRejected(ops, transfers, entering, outputs, st, start, active, picks, fence, live);
    }
  }

  lemma YieldEndRejected(ops: Ops, transfers: seq<nat>, entering: seq<nat>, outputs: seq<nat>, st: State, start: State,
                         active: Option<ActiveLoop>, picks: seq<Pick>, fence: nat, live: set<nat>)
    requires Sound(st) && Reached(start, active, live) && fence <= start.first
    requires start.enclosing == Captured(st) && start.discharged == st.discharged && End(st) <= start.first
    requires forall o: nat :: o < start.first ==> (Spends(ops, o) <==> o in entering)
    requires |transfers| == |outputs| && From(start.first, transfers)
    requires VerifyYield(ops, transfers, entering, |outputs|, st, start, active).None?
    requires !OpsFail(ops, start, active, End(start) + OwnCount(ops)) && Ends(RunOps(ops, picks, live))
    ensures var out := RunOps(ops, picks, live);
            out.Done? && Bad(Move(out.live, transfers, outputs), fence, FloorOf(active))
  {
    var end := Steps(ops, start).value;
    StepsCount(ops, start);
    OpsSound(ops, start, active, End(end), picks, live);
    YieldTransfersRejected(ops, transfers, entering, outputs, st, start, end, active, fence, RunOps(ops, picks, live).live);
  }

  lemma YieldLeak(out: Outcome, transfers: seq<nat>, outputs: seq<nat>, seen: set<nat>, inner: nat, fence: nat, floor: nat)
    requires Bad(out, inner, floor) && Below(seen, inner) && Visible(seen, transfers) && fence <= inner && floor <= inner
    ensures Bad(if out.Done? then Move(out.live, transfers, outputs) else out, fence, floor)
  {
    if out.Done? {
      var o :| o in out.live && inner <= o;
      MoveKeeps(out.live, transfers, outputs, o);
      StillBad(Move(out.live, transfers, outputs), fence, floor, o);
    }
  }

  lemma YieldSpends(ops: Ops, entering: seq<nat>, start: State, active: Option<ActiveLoop>)
    requires WithinAny(start, active) && forall i :: 0 <= i < |entering| ==> FloorOf(active) <= entering[i]
    requires forall o: nat :: o < start.first ==> (Spends(ops, o) <==> o in entering)
    ensures SpendsOwn(ops, active)
  {
    forall o: nat | Spends(ops, o)
      ensures FloorOf(active) <= o
    {
      assert o < start.first ==> o in entering;
    }
  }

  lemma YieldTransfersRejected(ops: Ops, transfers: seq<nat>, entering: seq<nat>, outputs: seq<nat>, st: State, start: State,
                               end: State, active: Option<ActiveLoop>, fence: nat, live: set<nat>)
    requires Sound(st) && Sound(start) && Agrees(end, live) && Steps(ops, start) == Some(end) && fence <= start.first
    requires WithinAny(start, active)
    requires start.enclosing == Captured(st) && start.discharged == st.discharged && End(st) <= start.first
    requires forall o: nat :: o < start.first ==> (Spends(ops, o) <==> o in entering)
    requires |transfers| == |outputs| && From(start.first, transfers)
    requires VerifyYield(ops, transfers, entering, |outputs|, st, start, active).None?
    requires VerifyNested(ops, start, active, End(end)).Some?
    ensures Bad(Move(live, transfers, outputs), fence, FloorOf(active))
  {
    assert forall i :: 0 <= i < |transfers| ==> Movable(end, transfers[i], None);
    ConsumeAllIff(end, transfers, None, live);
    if Remove(live, transfers).Some? {
      YieldEnters(ops, entering, st, start, end);
      ConsumeAllAgrees(end, transfers, None, live);
      var left := Remove(live, transfers).value;
      var o := OneLeft(ConsumeAll(end, transfers, None).value, left);
      if Add(left, outputs).Some? {
        AddKeeps(left, outputs, o);
      }
      StillBad(Move(live, transfers, outputs), fence, FloorOf(active), o);
    }
  }

  lemma YieldEnters(ops: Ops, entering: seq<nat>, st: State, start: State, end: State)
    requires Sound(st) && Sound(start) && Steps(ops, start) == Some(end) && start.discharged == st.discharged
    requires forall o: nat :: o < start.first ==> (Spends(ops, o) <==> o in entering)
    ensures EnteringExact(entering, st.discharged, end)
  {
    forall o: nat | o < end.first && Find(end.enclosing, o) == Some(true)
      ensures o in end.discharged && o !in st.discharged <==> o in entering
    {
      StepsFlag(ops, start, o);
    }
  }

  // ---------- Loops

  /** A loop once the values that it takes over are gone. */
  function RunLoop(op: Op, rounds: seq<Round>, live: set<nat>): Outcome
    requires op.Loop?
  {
    match RunAcquisitions(op.acquisitions, live)
    case Done(acquired) =>
      (match Move(acquired, Initials(op.acquisitions, op.headers, false), Parameters(op.headers))
       case Done(entered) => RunRounds(op.body, Parameters(op.headers), op.outputs, rounds, entered)
       case other => other)
    case other => other
  }

  lemma {:induction false} LoopRejected(op: Op, st: State, active: Option<ActiveLoop>, seen: set<nat>, fence: nat, cursor: nat,
                                        live: set<nat>)
    returns (pick: Pick)
    requires op.Loop? && Agrees(st, live) && Below(seen, End(st)) && Consecutive(Made(op), End(st))
    requires WithinAny(st, active) && End(st) + |Made(op)| <= fence <= cursor
    requires OpShaped(op, seen, CodeOf(active), cursor) && LoopsEndIn(op) && OpFails(op, st, active, cursor)
    ensures Bad(RunOp(op, pick, live), fence, FloorOf(active))
    decreases op, 0, 0
  {
    var taken := Spent(op);
    pick := Rounds([]);
    DischargeAllIff(st, taken, live);
    if DischargeAll(st, taken).Some? {
      DischargeAllAgrees(st, taken, live);
      DischargeAllChecks(st, taken);
      var pre, left := DischargeAll(st, taken).value, Remove(live, taken).value;
      IntroduceAllChecks(pre, op.outputs);
      var rounds, o := BodyRejected(op, pre, seen, cursor, left);
      pick := Rounds(rounds);
      assert RunOp(op, pick, live) == RunLoop(op, rounds, left);
      StillBad(RunOp(op, pick, live), fence, FloorOf(active), o);
    }
  }

  lemma {:induction false} BodyRejected(op: Op, pre: State, seen: set<nat>, cursor: nat, live: set<nat>)
    returns (rounds: seq<Round>, o: nat)
    requires op.Loop? && Agrees(pre, live) && End(pre) <= cursor && Below(seen, cursor)
    requires OpShaped(op, seen, None, cursor) && LoopsEndIn(op)
    requires var start := InitializeLoop(op.acquisitions, op.headers, pre, cursor);
             start.None? || VerifyBlock(op.body, ActiveLoop(pre, cursor, |op.headers|, |op.outputs|), start.value).None?
    ensures cursor <= o && !RunLoop(op, rounds, live).NoRun? && Kept(RunLoop(op, rounds, live), o)
    decreases op.body, 3, 0
  {
    rounds, o := [], cursor;
    var consumed := HeadersReached(op, pre, seen, cursor, live);
    var entered := Entered(op, live);
    if consumed.Some? && entered.Done? {
      if !Complete(consumed.value) {
        o := AcquisitionLeft(op, consumed.value, live);
        var round := BreakOut(op, cursor, seen, entered.live, o);
        rounds := [round];
      } else {
        HeadersStart(op, pre, seen, cursor, live, consumed.value);
        rounds, o := RoundRejected(op, pre, seen, cursor, entered.live);
      }
    }
  }

  /** The first round's start. */
  function Entered(op: Op, live: set<nat>): Outcome
    requires op.Loop?
  {
    match RunAcquisitions(op.acquisitions, live)
    case Done(acquired) => Move(acquired, Initials(op.acquisitions, op.headers, false), Parameters(op.headers))
    case other => other
  }

  /** What is live before the headers take their values. */
  function Unheaded(op: Op, live: set<nat>): Option<set<nat>>
    requires op.Loop?
  {
    match RunAcquisitions(op.acquisitions, live)
    case Done(acquired) => Remove(acquired, Initials(op.acquisitions, op.headers, false))
    case other => None
  }

  lemma HeadersReached(op: Op, pre: State, seen: set<nat>, cursor: nat, live: set<nat>) returns (consumed: Option<State>)
    requires op.Loop? && Agrees(pre, live) && End(pre) <= cursor && OpShaped(op, seen, None, cursor)
    ensures consumed == BeforeHeaders(op.acquisitions, op.headers, pre, cursor)
    ensures Ends(Entered(op, live)) && (consumed.None? ==> Entered(op, live).Fault?)
    ensures consumed.Some? ==> Unheaded(op, live).Some? && Agrees(consumed.value, Unheaded(op, live).value)
  {
    var entered, own := Enter(pre, cursor), Initials(op.acquisitions, op.headers, false);
    consumed := BeforeHeaders(op.acquisitions, op.headers, pre, cursor);
    EnterAgrees(pre, cursor, live);
    AcquisitionsEnd(op.acquisitions, live);
    if AcquireAll(op.acquisitions, entered).None? {
      AcquisitionsRejected(op.acquisitions, entered, seen, live);
    } else {
      AcquisitionsAgree(op.acquisitions, entered, live);
      var acquired, held := AcquireAll(op.acquisitions, entered).value, RunAcquisitions(op.acquisitions, live).live;
      OwnMovable(op.acquisitions, op.headers, seen, acquired);
      assert forall i :: 0 <= i < |own| ==> own[i] in own;
      ConsumeAllIff(acquired, own, None, held);
      if Remove(held, own).Some? {
        ConsumeAllAgrees(acquired, own, None, held);
      }
    }
  }

  /** An acquisition that no header took. */
  lemma AcquisitionLeft(op: Op, consumed: State, live: set<nat>) returns (o: nat)
    requires op.Loop? && Entered(op, live).Done? && Unheaded(op, live).Some?
    requires Agrees(consumed, Unheaded(op, live).value) && !Complete(consumed)
    ensures consumed.first <= o && o in Entered(op, live).live && o !in Parameters(op.headers)
  {
    o := OneLeft(consumed, Unheaded(op, live).value);
    AddKeeps(Unheaded(op, live).value, Parameters(op.headers), o);
  }

  lemma HeadersStart(op: Op, pre: State, seen: set<nat>, cursor: nat, live: set<nat>, consumed: State)
    requires op.Loop? && Agrees(pre, live) && End(pre) <= cursor && OpShaped(op, seen, None, cursor)
    requires Some(consumed) == BeforeHeaders(op.acquisitions, op.headers, pre, cursor) && Complete(consumed)
    requires Unheaded(op, live).Some? && Agrees(consumed, Unheaded(op, live).value)
    ensures InitializeLoop(op.acquisitions, op.headers, pre, cursor).Some?
    ensures var loop, start := ActiveLoop(pre, cursor, |op.headers|, |op.outputs|),
                               InitializeLoop(op.acquisitions, op.headers, pre, cursor).value;
            && Entered(op, live).Done? && Agrees(start, Entered(op, live).live)
            && Within(start, loop) && start.discharged == pre.discharged
            && End(start) == cursor + |op.acquisitions| + |op.headers|
  {
    var own, parameters := Initials(op.acquisitions, op.headers, false), Parameters(op.headers);
    var acquired := AcquireAll(op.acquisitions, Enter(pre, cursor)).value;
    EnterSees(pre, cursor, live);
    AcquisitionsSee(op.acquisitions, Enter(pre, cursor), live);
    ConsumeAllChecks(acquired, own, None);
    ConsumeKeepsFlags(acquired, own);
    ParametersCount(op.headers);
    IntroduceAllChecks(consumed, parameters);
    IntroduceAllAgrees(consumed, parameters, Unheaded(op, live).value);
    EnterLoop(pre, cursor, |op.headers|, |op.outputs|);
  }

  lemma OwnMovable(acquisitions: seq<Acquisition>, headers: seq<Header>, seen: set<nat>, st: State)
    requires Sound(st) && AcquisitionsShaped(acquisitions, seen, st.first)
    ensures forall o: nat :: o in Initials(acquisitions, headers, false) ==> Movable(st, o, None)
  {
    forall o: nat | o in Initials(acquisitions, headers, false)
      ensures Movable(st, o, None)
    {
      InitialTaken(acquisitions, headers, false, o);
      AcquiredFrom(acquisitions, seen, st.first);
    }
  }

  lemma {:induction false} AcquiredFrom(acquisitions: seq<Acquisition>, seen: set<nat>, n: nat)
    requires AcquisitionsShaped(acquisitions, seen, n)
    ensures forall i :: 0 <= i < |acquisitions| ==> n <= acquisitions[i].owner
    decreases |acquisitions|
  {
    if acquisitions != [] {
      AcquiredFrom(acquisitions[1..], seen + {n}, n + 1);
      assert forall i :: 0 < i < |acquisitions| ==> acquisitions[i] == acquisitions[1..][i - 1];
    }
  }

  /** One round that leaves the loop, with o still live. */
  lemma BreakOut(op: Op, cursor: nat, seen: set<nat>, live: set<nat>, o: nat) returns (round: Round)
    requires op.Loop? && OpShaped(op, seen, None, cursor) && LoopsEndIn(op)
    requires o in live && o !in Plus(seen, Parameters(op.headers))
    ensures var out := RunRounds(op.body, Parameters(op.headers), op.outputs, [round], live);
            !out.NoRun? && Kept(out, o)
  {
    var inner, around := Plus(seen, Parameters(op.headers)), Around(cursor, |op.headers|, |op.outputs|);
    var start := cursor + |op.acquisitions| + |op.headers|;
    var inside, tail := BlockBreaks(op.body, inner, around, start, live);
    round := Round(inside, tail);
    RoundsFrame(op.body, Parameters(op.headers), op.outputs, [round], inner, around, start, live, o);
  }

  lemma {:induction false} RoundRejected(op: Op, pre: State, seen: set<nat>, cursor: nat, live: set<nat>)
    returns (rounds: seq<Round>, o: nat)
    requires op.Loop? && Sound(pre) && End(pre) <= cursor && Below(seen, cursor)
    requires OpShaped(op, seen, None, cursor) && LoopsEndIn(op)
    requires InitializeLoop(op.acquisitions, op.headers, pre, cursor).Some?
    requires var loop, start := ActiveLoop(pre, cursor, |op.headers|, |op.outputs|),
                                InitializeLoop(op.acquisitions, op.headers, pre, cursor).value;
             && Agrees(start, live) && Within(start, loop) && start.discharged == pre.discharged
             && End(start) == cursor + |op.acquisitions| + |op.headers| && VerifyBlock(op.body, loop, start).None?
    ensures var out := RunRounds(op.body, Parameters(op.headers), op.outputs, rounds, live);
            cursor <= o && !out.NoRun? && Kept(out, o)
    decreases op.body, 2, 0
  {
    var loop, start := ActiveLoop(pre, cursor, |op.headers|, |op.outputs|),
                       InitializeLoop(op.acquisitions, op.headers, pre, cursor).value;
    var parameters := Parameters(op.headers);
    ParametersCount(op.headers);
    PlusBelow(seen, parameters, cursor + |op.acquisitions|);
    var inside, tail := BlockRejected(op.body, loop, start, Plus(seen, parameters), live);
    var round, out := Round(inside, tail), RunBlock(op.body, inside, tail, live);
    rounds, o := [round], cursor;
    if out.Gone? {
      o :| o in out.live && cursor <= o;
      if !out.recur && Add(out.live, op.outputs).Some? {
        AddKeeps(out.live, op.outputs, o);
      } else if out.recur && Add(out.live, parameters).Some? {
        AddKeeps(out.live, parameters, o);
        var again := BreakOut(op, cursor, seen, Add(out.live, parameters).value, o);
        rounds := [round] + [again];
        assert rounds[1..] == [again];
      }
    }
  }

  lemma {:induction false} BlockRejected(block: Block, loop: ActiveLoop, initial: State, seen: set<nat>, live: set<nat>)
    returns (inside: seq<Pick>, tail: TailPick)
    requires Reached(initial, Some(loop), live) && Below(seen, End(initial))
    requires BlockShaped(block, seen, Code(loop), End(initial)) && LoopsEndInBlock(block)
    requires VerifyBlock(block, loop, initial).None?
    ensures var out := RunBlock(block, inside, tail, live);
            Bad(out, 0, loop.floor) && !out.Done?
    decreases block, 1, 0
  {
    var ops, fence := block.ops, End(initial) + OwnCount(block.ops);
    tail := AtEdge;
    if OpsFail(ops, initial, Some(loop), fence) {
      inside := OpsRejected(ops, initial, Some(loop), seen, fence, fence, live);
      var out := RunOps(ops, inside, live);
      if out.Done? {
        var o :| o in out.live && fence <= o;
        tail := BlockLeak(block, inside, loop, initial, seen, live, o);
      }
    } else {
      inside, tail := BlockTailRejected(block, loop, initial, seen, live);
    }
  }

  /** The operations are accepted, so it is the tail that is not. */
  lemma {:induction false} BlockTailRejected(block: Block, loop: ActiveLoop, initial: State, seen: set<nat>, live: set<nat>)
    returns (inside: seq<Pick>, tail: TailPick)
    requires Reached(initial, Some(loop), live) && Below(seen, End(initial))
    requires BlockShaped(block, seen, Code(loop), End(initial)) && LoopsEndInBlock(block)
    requires VerifyBlock(block, loop, initial).None?
    requires !OpsFail(block.ops, initial, Some(loop), End(initial) + OwnCount(block.ops))
    ensures var out := RunBlock(block, inside, tail, live);
            Bad(out, 0, loop.floor) && !out.Done?
    decreases block, 0, 0
  {
    var end, cursor, left;
    inside, end, cursor, left := OpsPassed(block.ops, loop, initial, seen, End(initial) + OwnCount(block.ops), live);
    var later := TailHasShape(block, loop, seen, End(initial), cursor);
    TailFails(block, loop, initial, end, cursor);
    tail := TailRejected(block.tail, loop, end, later, cursor, left);
  }

  lemma TailHasShape(block: Block, loop: ActiveLoop, seen: set<nat>, n: nat, cursor: nat) returns (later: set<nat>)
    requires BlockShaped(block, seen, Code(loop), n) && LoopsEndInBlock(block) && Below(seen, n)
    requires cursor == n + OwnCount(block.ops) + NestedCount(block.ops)
    ensures Below(later, n + OwnCount(block.ops)) && TailShaped(block.tail, later, Code(loop), cursor)
    ensures LoopsEndInTail(block.tail)
  {
    later := SeenAfter(block.ops, seen);
    SeenBelow(block.ops, seen, n);
  }

  lemma TailFails(block: Block, loop: ActiveLoop, initial: State, end: State, cursor: nat)
    requires VerifyBlock(block, loop, initial).None? && Steps(block.ops, initial) == Some(end)
    requires VerifyNested(block.ops, initial, Some(loop), End(end)) == Some(cursor)
    ensures VerifyTail(block.tail, loop, end, cursor).None?
  {
  }

  lemma BlockLeak(block: Block, inside: seq<Pick>, loop: ActiveLoop, initial: State, seen: set<nat>, live: set<nat>, o: nat)
    returns (tail: TailPick)
    requires Within(initial, loop) && Below(seen, End(initial)) && End(initial) + OwnCount(block.ops) <= o
    requires BlockShaped(block, seen, Code(loop), End(initial)) && LoopsEndInBlock(block)
    requires RunOps(block.ops, inside, live).Done? && o in RunOps(block.ops, inside, live).live
    ensures var out := RunBlock(block, inside, tail, live);
            Bad(out, 0, loop.floor) && !out.Done?
  {
    var later, left := SeenAfter(block.ops, seen), RunOps(block.ops, inside, live).live;
    var n := End(initial) + OwnCount(block.ops) + NestedCount(block.ops);
    SeenBelow(block.ops, seen, End(initial));
    tail := TailEnds(block.tail, later, Code(loop), n, left);
    TailFrame(block.tail, tail, later, Code(loop), n, left, o);
    StillBad(RunBlock(block, inside, tail, live), 0, loop.floor, o);
  }

  lemma OpsPassed(ops: Ops, loop: ActiveLoop, st: State, seen: set<nat>, fence: nat, live: set<nat>)
    returns (inside: seq<Pick>, end: State, cursor: nat, left: set<nat>)
    requires Reached(st, Some(loop), live) && SpendsOwn(ops, Some(loop)) && fence == End(st) + OwnCount(ops)
    requires OpsShaped(ops, seen, Some(Code(loop)), fence) && LoopsEnd(ops) && !OpsFail(ops, st, Some(loop), fence)
    ensures RunOps(ops, inside, live) == Done(left) && Steps(ops, st) == Some(end) && Reached(end, Some(loop), left)
    ensures End(end) == fence && VerifyNested(ops, st, Some(loop), fence) == Some(cursor) && cursor == fence + NestedCount(ops)
  {
    inside := OpsEnd(ops, seen, Some(Code(loop)), fence, live);
    end, cursor := Steps(ops, st).value, VerifyNested(ops, st, Some(loop), fence).value;
    StepsCount(ops, st);
    NestedCounts(ops, st, Some(loop), fence);
    OpsSound(ops, st, Some(loop), fence, inside, live);
    left := RunOps(ops, inside, live).live;
    StepsUntouched(ops, st, loop);
  }

  lemma StepsUntouched(ops: Ops, st: State, loop: ActiveLoop)
    requires Sound(st) && Within(st, loop) && Untouched(st, loop) && Steps(ops, st).Some? && SpendsOwn(ops, Some(loop))
    ensures Untouched(Steps(ops, st).value, loop) && Within(Steps(ops, st).value, loop)
  {
    StepsWithin(ops, st, loop);
    forall o: nat | Find(Captured(loop.pre), o) == Some(true) && o !in loop.pre.discharged
      ensures o !in Steps(ops, st).value.discharged
    {
      FindAppend(loop.pre.enclosing, Scope(loop.pre.first, loop.pre.owners), o);
      StepsFlag(ops, st, o);
    }
  }

  lemma {:induction false} TailRejected(tail: Tail, loop: ActiveLoop, end: State, seen: set<nat>, cursor: nat, live: set<nat>)
    returns (pick: TailPick)
    requires Reached(end, Some(loop), live) && Below(seen, End(end)) && End(end) <= cursor
    requires TailShaped(tail, seen, Code(loop), cursor) && LoopsEndInTail(tail)
    requires VerifyTail(tail, loop, end, cursor).None?
    ensures var out := RunTail(tail, pick, live);
            Bad(out, 0, loop.floor) && !out.Done?
    decreases tail, 0, 0
  {
    match tail
    case LoopEdge(recur, transfers) =>
      pick := AtEdge;
      LoopEdgeRejected(recur, transfers, loop, end, live);
    case Match(selection, arms) =>
      pick := MatchRejected(tail, loop, end, seen, cursor, live);
  }

  lemma LoopEdgeRejected(recur: bool, transfers: seq<nat>, loop: ActiveLoop, end: State, live: set<nat>)
    requires Reached(end, Some(loop), live) && From(loop.floor, transfers)
    requires |transfers| == (if recur then loop.headers else loop.outputs)
    requires !VerifyLoopEdge(recur, transfers, loop, end)
    ensures Bad(RunTail(LoopEdge(recur, transfers), AtEdge, live), 0, loop.floor)
  {
    ConsumeAllIff(end, transfers, Some(loop.floor), live);
    if Remove(live, transfers).Some? {
      ConsumeAllAgrees(end, transfers, Some(loop.floor), live);
      ConsumeUntouched(end, transfers, loop);
      var done, left := ConsumeAll(end, transfers, Some(loop.floor)).value, Remove(live, transfers).value;
      if !Complete(done) {
        var o := OneLeft(done, left);
      } else {
        var o: nat :| loop.floor <= o < done.first && Find(done.enclosing, o) == Some(true) && o !in done.discharged;
        assert Active(done, o);
        assert o in left;
      }
    }
  }

  lemma {:induction false} ConsumeUntouched(st: State, os: seq<nat>, loop: ActiveLoop)
    requires Sound(st) && Within(st, loop) && Untouched(st, loop) && From(loop.floor, os)
    requires ConsumeAll(st, os, Some(loop.floor)).Some?
    ensures Untouched(ConsumeAll(st, os, Some(loop.floor)).value, loop)
    decreases |os|
  {
    if os != [] {
      forall o: nat | Find(Captured(loop.pre), o) == Some(true)
        ensures o < loop.floor
      {
        FindAppend(loop.pre.enclosing, Scope(loop.pre.first, loop.pre.owners), o);
      }
      ConsumeUntouched(Discharge(st, os[0]).value, os[1..], loop);
    }
  }

  lemma {:induction false} MatchRejected(tail: Tail, loop: ActiveLoop, end: State, seen: set<nat>, cursor: nat, live: set<nat>)
    returns (pick: TailPick)
    requires tail.Match? && Reached(end, Some(loop), live) && Below(seen, End(end)) && End(end) <= cursor
    requires TailShaped(tail, seen, Code(loop), cursor) && LoopsEndInTail(tail)
    requires VerifyTail(tail, loop, end, cursor).None?
    ensures var out := RunTail(tail, pick, live);
            Bad(out, 0, loop.floor) && !out.Done?
    decreases tail.arms, 1, 0
  {
    var selection := tail.selection;
    var inputs, start := MatchParts(tail, seen, Code(loop), cursor);
    if !ActiveSource(end, selection.scrutinee) {
      pick := Into(0, [], AtEdge);
      assert selection.edges[0].arm < |inputs|;
      LoopArmsFault(tail.arms, selection.edges[0].arm, selection, pick, live);
    } else if VerifyEdges(selection.edges, inputs, end, cursor).None? {
      pick := MatchEdgeRejected(tail, inputs, start, loop, end, seen, cursor, live);
    } else {
      MatchArmsFail(tail, inputs, start, loop, end, cursor);
      assert inputs[0..] == inputs;
      var e, inside, more := LoopArmsRejected(tail.arms, 0, selection, inputs, loop, end, seen, cursor, start, live);
      pick := Into(e, inside, more);
    }
  }

  lemma MatchParts(tail: Tail, seen: set<nat>, around: Around, n: nat) returns (inputs: seq<seq<nat>>, start: nat)
    requires tail.Match? && TailShaped(tail, seen, around, n)
    ensures inputs == LoopInputs(tail.arms) && start == n + EdgesCount(tail.selection.edges)
    ensures Connected(tail.selection, |inputs|) && Reaches(tail.selection, |inputs|)
    ensures EdgesShaped(tail.selection.edges, inputs, seen, n)
    ensures LoopArmsShaped(tail.arms, seen, around, start)
  {
    inputs, start := LoopInputs(tail.arms), n + EdgesCount(tail.selection.edges);
    ConnectedReaches(tail.selection, |inputs|);
  }

  lemma MatchArmsFail(tail: Tail, inputs: seq<seq<nat>>, start: nat, loop: ActiveLoop, end: State, cursor: nat)
    requires tail.Match? && VerifyTail(tail, loop, end, cursor).None? && ActiveSource(end, tail.selection.scrutinee)
    requires inputs == LoopInputs(tail.arms) && Connected(tail.selection, |inputs|)
    requires VerifyEdges(tail.selection.edges, inputs, end, cursor).Some? && start == cursor + EdgesCount(tail.selection.edges)
    ensures VerifyLoopArms(tail.arms, loop, end, start).None?
  {
    EdgesCounts(tail.selection.edges, inputs, end, cursor);
  }

  lemma MatchEdgeRejected(tail: Tail, inputs: seq<seq<nat>>, start: nat, loop: ActiveLoop, end: State, seen: set<nat>,
                          cursor: nat, live: set<nat>)
    returns (pick: TailPick)
    requires tail.Match? && Agrees(end, live) && Below(seen, cursor) && End(end) <= cursor && loop.floor <= cursor
    requires inputs == LoopInputs(tail.arms) && EdgesShaped(tail.selection.edges, inputs, seen, cursor)
    requires LoopArmsShaped(tail.arms, seen, Code(loop), start) && LoopsEndInTail(tail)
    requires VerifyEdges(tail.selection.edges, inputs, end, cursor).None?
    ensures var out := RunTail(tail, pick, live);
            Bad(out, 0, loop.floor) && !out.Done?
  {
    assert tail.selection.edges[0..] == tail.selection.edges;
    var e, o := EdgesRejected(tail.selection, 0, inputs, end, seen, cursor, live);
    var k := tail.selection.edges[e].arm;
    var inside, more := LoopArmsEnd(tail.arms, k, tail.selection, e, seen, Code(loop), start, live);
    pick := Into(e, inside, more);
    LoopArmsKeep(tail.arms, k, tail.selection, pick, seen, Code(loop), start, live, o);
    StillBad(RunTail(tail, pick, live), 0, loop.floor, o);
  }

  lemma {:induction false} LoopArmsRejected(arms: LoopArms, offset: nat, selection: Selection, inputs: seq<seq<nat>>,
                                            loop: ActiveLoop, st: State, seen: set<nat>, cursor: nat, n: nat, live: set<nat>)
    returns (e: nat, inside: seq<Pick>, tail: TailPick)
    requires Reached(st, Some(loop), live) && Below(seen, End(st)) && End(st) <= cursor && End(st) <= n
    requires LoopArmsShaped(arms, seen, Code(loop), n) && LoopsEndInLoopArms(arms)
    requires ActiveSource(st, selection.scrutinee) && VerifyEdges(selection.edges, inputs, st, cursor).Some?
    requires offset <= |inputs| && inputs[offset..] == LoopInputs(arms)
    requires forall j :: offset <= j < |inputs| ==> j in Targets(selection)
    requires VerifyLoopArms(arms, loop, st, n).None?
    ensures e < |selection.edges| && offset <= selection.edges[e].arm < |inputs|
    ensures var out := RunLoopArms(arms, selection.edges[e].arm - offset, selection, Into(e, inside, tail), live);
            Bad(out, 0, loop.floor) && !out.Done?
    decreases arms, 0, 0
  {
    var start, inner := LoopArmStarts(arms, loop, st, seen, n, live);
    assert inputs[offset] == arms.inputs;
    if VerifyBlock(arms.body, loop, start).None? {
      var entered;
      e, entered := EdgeInto(selection, offset, inputs, st, cursor, n, start, live);
      inside, tail := BlockRejected(arms.body, loop, start, inner, entered);
      TakeLoopArm(arms, selection, Into(e, inside, tail), live, entered);
    } else {
      var after := NextLoopArm(arms, loop, st, seen, n, live, start);
      assert inputs[offset + 1..] == inputs[offset..][1..];
      e, inside, tail := LoopArmsRejected(arms.others, offset + 1, selection, inputs, loop, st, seen, cursor,
                                          after, live);
      SkipLoopArm(arms, selection.edges[e].arm - offset, selection, Into(e, inside, tail), live);
    }
  }

  lemma LoopArmStarts(arms: LoopArms, loop: ActiveLoop, st: State, seen: set<nat>, n: nat, live: set<nat>)
    returns (start: State, inner: set<nat>)
    requires arms.LoopArm? && Reached(st, Some(loop), live) && Below(seen, End(st)) && End(st) <= n
    requires LoopArmsShaped(arms, seen, Code(loop), n)
    ensures IntroduceAll(Enter(st, n), arms.inputs) == Some(start) && inner == Plus(seen, arms.inputs)
    ensures Sees(start, Plus(live, arms.inputs)) && Within(start, loop) && Untouched(start, loop)
    ensures End(start) == n + |arms.inputs| && Below(inner, End(start)) && BlockShaped(arms.body, inner, Code(loop), End(start))
  {
    EnterSound(st, n);
    IntroduceAllChecks(Enter(st, n), arms.inputs);
    ArmStarts(arms.inputs, st, Some(loop), live, n);
    PlusBelow(seen, arms.inputs, n);
    start, inner := IntroduceAll(Enter(st, n), arms.inputs).value, Plus(seen, arms.inputs);
  }

  lemma NextLoopArm(arms: LoopArms, loop: ActiveLoop, st: State, seen: set<nat>, n: nat, live: set<nat>, start: State)
    returns (after: nat)
    requires arms.LoopArm? && Sees(start, Plus(live, arms.inputs)) && Within(start, loop) && End(start) == n + |arms.inputs|
    requires LoopArmsShaped(arms, seen, Code(loop), n) && IntroduceAll(Enter(st, n), arms.inputs) == Some(start)
    requires VerifyLoopArms(arms, loop, st, n).None? && VerifyBlock(arms.body, loop, start).Some?
    ensures n <= after && LoopArmsShaped(arms.others, seen, Code(loop), after)
    ensures VerifyLoopArms(arms.others, loop, st, after).None?
  {
    BlockCounts(arms.body, loop, start);
    after := VerifyBlock(arms.body, loop, start).value;
  }

  lemma TakeLoopArm(arms: LoopArms, selection: Selection, pick: TailPick, live: set<nat>, entered: set<nat>)
    requires arms.LoopArm? && pick.Into? && pick.edge < |selection.edges|
    requires RunEdge(selection, pick.edge, arms.inputs, live) == Done(entered)
    ensures RunLoopArms(arms, 0, selection, pick, live) == RunBlock(arms.body, pick.inside, pick.tail, entered)
  {
  }

  lemma SkipLoopArm(arms: LoopArms, k: nat, selection: Selection, pick: TailPick, live: set<nat>)
    requires arms.LoopArm? && k > 0 && pick.Into? && pick.edge < |selection.edges|
    ensures RunLoopArms(arms, k, selection, pick, live) == RunLoopArms(arms.others, k - 1, selection, pick, live)
  {
  }

  // ---------- Functions

  /** Every execution of the function returns, with nothing live: nothing faults, nothing leaks and
      nothing leaves by the edge of a loop that it is not in. */
  ghost predicate Balanced(f: Function) {
    forall picks :: RunFunction(f, picks).NoRun? || RunFunction(f, picks) == Done({})
  }

  /** What the verifier accepts, without the verifier: among functions whose loops can all end,
      exactly those whose code has the right shape and whose every execution balances. */
  lemma AcceptsIff(f: Function)
    requires LoopsEnd(f.ops)
    ensures VerifyFunction(f) <==> FunctionShaped(f) && Balanced(f)
  {
    if VerifyFunction(f) {
      AcceptedIsShaped(f);
      forall picks
        ensures RunFunction(f, picks).NoRun? || RunFunction(f, picks) == Done({})
      {
        AcceptedFunctionsBalance(f, picks);
      }
    } else if FunctionShaped(f) {
      var picks := RejectedGoesWrong(f);
      assert !Balanced(f);
    }
  }

  /** A rejected function of the right shape has an execution that faults or leaks. */
  lemma RejectedGoesWrong(f: Function) returns (picks: seq<Pick>)
    requires FunctionShaped(f) && LoopsEnd(f.ops) && !VerifyFunction(f)
    ensures !RunFunction(f, picks).NoRun? && RunFunction(f, picks) != Done({})
  {
    var fence := OwnCount(f.ops);
    assert Agrees(START, {});
    if OpsFail(f.ops, START, None, fence) {
      picks := OpsRejected(f.ops, START, None, {}, fence, fence, {});
      LeakIsSeen(f, picks);
    } else {
      picks := OpsEnd(f.ops, {}, None, fence, {});
      ReturnGoesWrong(f, picks);
    }
  }

  lemma ReturnGoesWrong(f: Function, picks: seq<Pick>)
    requires !VerifyFunction(f) && !OpsFail(f.ops, START, None, OwnCount(f.ops)) && Ends(RunOps(f.ops, picks, {}))
    ensures !RunFunction(f, picks).NoRun? && RunFunction(f, picks) != Done({})
  {
    assert Agrees(START, {});
    StepsCount(f.ops, START);
    OpsSound(f.ops, START, None, OwnCount(f.ops), picks, {});
    ReturnIff(f, Steps(f.ops, START).value, RunOps(f.ops, picks, {}).live);
  }

  lemma LeakIsSeen(f: Function, picks: seq<Pick>)
    requires FunctionShaped(f) && Bad(RunOps(f.ops, picks, {}), OwnCount(f.ops), 0)
    ensures !RunFunction(f, picks).NoRun? && RunFunction(f, picks) != Done({})
  {
    var out, returned := RunOps(f.ops, picks, {}), Listed(f.returned);
    if out.Done? {
      var o :| o in out.live && OwnCount(f.ops) <= o;
      SeenBelow(f.ops, {}, 0);
      NotSpent(SeenAfter(f.ops, {}), returned, o);
      if Remove(out.live, returned).Some? {
        RemoveKeeps(out.live, returned, o);
      }
    }
  }

  /** Nothing is left after the result has moved out exactly when nothing else was active. */
  lemma ReturnIff(f: Function, end: State, live: set<nat>)
    requires Agrees(end, live)
    ensures Plainly(Remove(live, Listed(f.returned))) == Done({}) <==>
              && (f.returned.Some? ==> Active(end, f.returned.value))
              && (forall o: nat :: o < End(end) && Active(end, o) ==> f.returned == Some(o))
  {
    forall o: nat | o in live
      ensures o < End(end)
    {
      assert Active(end, o);
    }
    assert (forall o: nat :: o < End(end) && Active(end, o) ==> f.returned == Some(o)) <==>
        forall o :: o in live ==> f.returned == Some(o);
    if f.returned.Some? {
      OneOwner(live, f.returned.value);
      var rest := live - {f.returned.value};
      assert forall o :: o in rest <==> o in live && o != f.returned.value;
      assert rest == {} <==> forall o :: o in live ==> o == f.returned.value;
    } else {
      assert live == {} <==> forall o :: o !in live;
    }
  }

  // ---------- Straight-line functions

  predicate PlainOps(ops: Ops) {
    ops.Cons? ==> !ops.head.Join? && !ops.head.Loop? && PlainOps(ops.tail)
  }

  function Length(ops: Ops): nat {
    if ops.Nil? then 0 else 1 + Length(ops.tail)
  }

  lemma {:induction false} StraightStepsIff(ops: Ops, st: State, picks: seq<Pick>, live: set<nat>)
    requires PlainOps(ops) && Agrees(st, live) && |picks| == Length(ops)
    ensures Steps(ops, st).Some? <==> RunOps(ops, picks, live).Done? && InOrder(ops, End(st))
    ensures Steps(ops, st).Some? ==> Agrees(Steps(ops, st).value, RunOps(ops, picks, live).live)
    decreases ops
  {
    if ops.Cons? {
      PlainIff(ops.head, st, live);
      if Step(ops.head, st).Some? {
        PlainAgrees(ops.head, st, live);
        StepSees(ops.head, st, live);
        StraightStepsIff(ops.tail, Step(ops.head, st).value, picks[1..], RunPlain(ops.head, live).live);
      }
    }
  }

  lemma {:induction false} NothingNested(ops: Ops, st: State, cursor: nat)
    requires PlainOps(ops) && Steps(ops, st).Some?
    ensures VerifyNested(ops, st, None, cursor).Some?
    decreases ops
  {
    if ops.Cons? {
      NothingNested(ops.tail, Step(ops.head, st).value, cursor);
    }
  }

  /** Without joins and loops there is one execution, and it and the numbers decide. */
  lemma StraightLineIff(f: Function, picks: seq<Pick>)
    requires PlainOps(f.ops) && |picks| == Length(f.ops)
    ensures VerifyFunction(f) <==> InOrder(f.ops, 0) && RunFunction(f, picks) == Done({})
  {
    assert Agrees(START, {});
    StraightStepsIff(f.ops, START, picks, {});
    if Steps(f.ops, START).Some? {
      var end, live := Steps(f.ops, START).value, RunOps(f.ops, picks, {}).live;
      NothingNested(f.ops, START, End(end));
      ReturnIff(f, end, live);
    }
  }

  // ---------- A loop that cannot end

  const ENDLESS := Loop([], [], [], Block(Nil, LoopEdge(true, [])))

  /** Behind a loop without a way out nothing runs, but the verifier looks at it all the same: an
      owner made before the loop and never discharged is an error that no execution meets. */
  lemma EndlessLoopRejected(f: Function)
    requires f == Function(Cons(Define([], [], Some(0)), Cons(ENDLESS, Nil)), None)
    ensures FunctionShaped(f) && Balanced(f) && !VerifyFunction(f)
  {
    EndlessShaped(f);
    forall picks
      ensures RunFunction(f, picks).NoRun?
    {
      EndlessRuns(f, picks);
    }
    EndlessLeaks(f);
  }

  lemma EndlessShaped(f: Function)
    requires f == Function(Cons(Define([], [], Some(0)), Cons(ENDLESS, Nil)), None)
    ensures FunctionShaped(f)
  {
    assert Initials([], [], true) == [] && Parameters([]) == [] && SeenAfter(Nil, {}) == {};
    assert BlockShaped(ENDLESS.body, Plus(Plus({}, [0]), []), Around(1, 0, 0), 1);
    assert OpShaped(ENDLESS, Plus({}, [0]), None, 1);
    assert OpsShaped(Cons(ENDLESS, Nil), Plus({}, [0]), None, 1);
    assert Made(Define([], [], Some(0))) == [0] && Made(ENDLESS) == [];
    assert InOrder(Cons(ENDLESS, Nil), 1) && OwnCount(Cons(ENDLESS, Nil)) == 0;
  }

  lemma {:induction false} EndlessRounds(rounds: seq<Round>, live: set<nat>)
    ensures RunRounds(ENDLESS.body, [], [], rounds, live).NoRun?
    decreases |rounds|
  {
    if rounds != [] {
      EndlessRounds(rounds[1..], live);
    }
  }

  lemma EndlessRuns(f: Function, picks: seq<Pick>)
    requires f == Function(Cons(Define([], [], Some(0)), Cons(ENDLESS, Nil)), None)
    ensures RunFunction(f, picks).NoRun?
  {
    OneOwner({}, 0);
    assert picks != [] ==> RunOp(f.ops.head, picks[0], {}) == Done({0});
    if |picks| > 1 && picks[1].Rounds? {
      assert picks[1..][0] == picks[1];
      assert Initials([], [], true) == Initials([], [], false) == Parameters([]) == [];
      assert StartLoop([], [], {0}) == Done({0});
      EndlessRounds(picks[1].rounds, {0});
    }
  }

  lemma EndlessLeaks(f: Function)
    requires f == Function(Cons(Define([], [], Some(0)), Cons(ENDLESS, Nil)), None)
    ensures !VerifyFunction(f)
  {
    var made := State([], 0, [true], {});
    assert [] + [true] == [true];
    assert Step(f.ops.head, START) == Some(made);
    assert Initials([], [], true) == [];
    assert Step(ENDLESS, made) == Some(made);
    assert Steps(Cons(ENDLESS, Nil), made) == Some(made);
    assert Active(made, 0);
  }
}
