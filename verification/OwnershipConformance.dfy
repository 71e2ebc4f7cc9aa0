/** Code that the ownership verifier accepts has the shape it asks of code. */
module OwnershipConformance {
  import opened Options
  import opened OwnershipVerifier
  import opened OwnershipShape
  import opened OwnershipNumbers
  import opened OwnershipSoundness

  /** What is active is among what the code can see. */
  ghost predicate Sees(st: State, seen: set<nat>) {
    Sound(st) && forall o: nat :: Active(st, o) ==> o in seen
  }

  function Code(loop: ActiveLoop): Around { Around(loop.floor, loop.headers, loop.outputs) }

  function CodeOf(active: Option<ActiveLoop>): Option<Around> {
    if active.Some? then Some(Code(active.value)) else None
  }

  // ---------- Operations

  lemma {:induction false} DischargeAllChecks(st: State, os: seq<nat>)
    requires Sound(st)
    ensures DischargeAll(st, os).Some? <==> AllActive(st, os) && Distinct(os)
    ensures DischargeAll(st, os).Some? ==>
              var next := DischargeAll(st, os).value;
              Sound(next) && End(next) == End(st) && forall o: nat :: Active(next, o) <==> Active(st, o) && o !in os
    decreases |os|
  {
    if os != [] && Active(st, os[0]) {
      var next := Discharge(st, os[0]).value;
      assert Sound(next) && forall o: nat :: Active(next, o) <==> Active(st, o) && o != os[0];
      DischargeAllChecks(next, os[1..]);
      assert AllActive(st, os) && Distinct(os) <==> AllActive(next, os[1..]) && Distinct(os[1..]) by {
        assert forall i :: 0 < i < |os| ==> os[i] == os[1..][i - 1];
        assert forall i :: 0 <= i < |os| - 1 ==> os[1..][i] == os[i + 1];
      }
    }
  }

  lemma {:induction false} IntroduceAllChecks(st: State, os: seq<nat>)
    requires Sound(st)
    ensures IntroduceAll(st, os).Some? <==> Consecutive(os, End(st))
    ensures IntroduceAll(st, os).Some? ==>
              var next := IntroduceAll(st, os).value;
              && Sound(next) && End(next) == End(st) + |os| && next.discharged == st.discharged
              && forall o: nat :: Active(next, o) ==> Active(st, o) || o in os
    decreases |os|
  {
    if os != [] && os[0] == End(st) {
      var next := Introduce(st, os[0]).value;
      IntroduceAllChecks(next, os[1..]);
      assert Consecutive(os, End(st)) <==> Consecutive(os[1..], End(next)) by {
        assert forall i :: 0 < i < |os| ==> os[i] == os[1..][i - 1];
        assert forall i :: 0 <= i < |os| - 1 ==> os[1..][i] == os[i + 1];
      }
    }
  }

  lemma OneMore(st: State, owner: nat)
    ensures IntroduceAll(st, [owner]) == Introduce(st, owner) && IntroduceAll(st, []) == Some(st)
    ensures DischargeAll(st, [owner]) == Discharge(st, owner)
  {
    assert [owner][1..] == [];
  }

  /** In its own block an operation discharges and then makes owners. */
  lemma StepMoves(op: Op, st: State)
    requires Sound(st) && Step(op, st).Some?
    ensures AllActive(st, Looked(op)) && AllActive(st, Spent(op)) && Distinct(Spent(op)) && Consecutive(Made(op), End(st))
    ensures DischargeAll(st, Spent(op)).Some?
    ensures Step(op, st) == IntroduceAll(DischargeAll(st, Spent(op)).value, Made(op))
  {
    DischargeAllChecks(st, Spent(op));
    match op
    case Define(borrowed, consumed, result) =>
      IntroduceAllChecks(DischargeAll(st, consumed).value, Made(op));
      if result.Some? {
        OneMore(DischargeAll(st, consumed).value, result.value);
      }
    case Acquire(source, owner) =>
      OneMore(st, owner);
      IntroduceAllChecks(st, [owner]);
    case Drop(owner) => OneMore(st, owner);
    case Join(selection, entering, outputs, _) => IntroduceAllChecks(DischargeAll(st, entering).value, outputs);
    case Loop(acquisitions, headers, outputs, _) => IntroduceAllChecks(DischargeAll(st, Spent(op)).value, outputs);
  }

  lemma StepSees(op: Op, st: State, seen: set<nat>)
    requires Sees(st, seen) && Step(op, st).Some?
    ensures Visible(seen, Looked(op)) && Visible(seen, Spent(op)) && Distinct(Spent(op)) && Consecutive(Made(op), End(st))
    ensures var next := Step(op, st).value;
            End(next) == End(st) + |Made(op)| && Sees(next, Plus(seen, Made(op)))
  {
    StepMoves(op, st);
    DischargeAllChecks(st, Spent(op));
    IntroduceAllChecks(DischargeAll(st, Spent(op)).value, Made(op));
  }

  lemma {:induction false} StepsSee(ops: Ops, st: State, seen: set<nat>)
    requires Sees(st, seen) && Steps(ops, st).Some?
    ensures InOrder(ops, End(st))
    ensures var end := Steps(ops, st).value;
            End(end) == End(st) + OwnCount(ops) && Sees(end, SeenAfter(ops, seen))
    decreases ops
  {
    if ops.Cons? {
      StepSees(ops.head, st, seen);
      StepsSee(ops.tail, Step(ops.head, st).value, Plus(seen, Made(ops.head)));
    }
  }

  lemma {:induction false} DischargeAllFlags(st: State, os: seq<nat>, o: nat)
    requires Sound(st) && DischargeAll(st, os).Some?
    ensures Find(st.enclosing, o).Some? ==> (o in DischargeAll(st, os).value.discharged <==> o in st.discharged || o in os)
    decreases |os|
  {
    if os != [] {
      DischargeAllFlags(Discharge(st, os[0]).value, os[1..], o);
    }
  }

  /** Of the owners around, a block discharges just those that its operations spend. */
  lemma {:induction false} StepsFlag(ops: Ops, st: State, o: nat)
    requires Sound(st) && Steps(ops, st).Some?
    ensures Sound(Steps(ops, st).value)
    ensures Find(st.enclosing, o).Some? ==>
              (o in Steps(ops, st).value.discharged <==> o in st.discharged || Spends(ops, o))
    ensures Spends(ops, o) && o < st.first ==> Active(st, o)
    decreases ops
  {
    if ops.Cons? {
      var spent, next := Spent(ops.head), Step(ops.head, st).value;
      StepMoves(ops.head, st);
      DischargeAllFlags(st, spent, o);
      DischargeAllChecks(st, spent);
      IntroduceAllChecks(DischargeAll(st, spent).value, Made(ops.head));
      StepsFlag(ops.tail, next, o);
    }
  }

  // ---------- Selections

  lemma {:induction false} ConsumeAllChecks(st: State, os: seq<nat>, floor: Option<nat>)
    requires Sound(st)
    ensures ConsumeAll(st, os, floor).Some? ==>
              var next := ConsumeAll(st, os, floor).value;
              && Sound(next) && End(next) == End(st)
              && forall i :: 0 <= i < |os| ==> Active(st, os[i]) && Movable(st, os[i], floor)
    decreases |os|
  {
    if os != [] && Movable(st, os[0], floor) && Active(st, os[0]) {
      var next := Discharge(st, os[0]).value;
      ConsumeAllChecks(next, os[1..], floor);
      assert forall o: nat :: Active(next, o) ==> Active(st, o);
      assert forall i :: 0 < i < |os| ==> os[i] == os[1..][i - 1];
    }
  }

  lemma {:induction false} LocalsSee(steps: seq<Local>, st: State, seen: set<nat>)
    requires Sees(st, seen) && LocalSteps(steps, st).Some?
    ensures LocalsShaped(steps, seen, st.first, End(st))
    ensures var end := LocalSteps(steps, st).value;
            End(end) == End(st) + LocalsCount(steps) && Sees(end, LocalsSeen(steps, seen))
    decreases |steps|
  {
    if steps != [] {
      var op := AsOp(steps[0]);
      StepSees(op, st, seen);
      LocalsSee(steps[1..], Step(op, st).value, Plus(seen, Made(op)));
    }
  }

  lemma EdgeConforms(edge: Edge, inputs: nat, initial: State, seen: set<nat>)
    requires Sees(initial, seen) && initial.owners == [] && VerifyEdge(edge, inputs, initial).Some?
    ensures EdgeShaped(edge, inputs, seen, initial.first)
  {
    LocalsSee(edge.steps, initial, seen);
    var st := LocalSteps(edge.steps, initial).value;
    ConsumeAllChecks(st, edge.transfers, None);
  }

  lemma EnterSees(st: State, first: nat, seen: set<nat>)
    requires Sees(st, seen) && End(st) <= first
    ensures Sees(Enter(st, first), seen)
  {
    EnterSound(st, first);
  }

  lemma EnterSound(st: State, first: nat)
    requires Sound(st) && End(st) <= first
    ensures Sound(Enter(st, first)) && forall o: nat :: Active(Enter(st, first), o) <==> Active(st, o)
  {
    forall o: nat
      ensures Find(Captured(st), o).Some? ==> o < first
      ensures o in st.discharged ==> Find(Captured(st), o).Some?
      ensures Active(Enter(st, first), o) <==> Active(st, o)
    {
      FindAppend(st.enclosing, Scope(st.first, st.owners), o);
    }
  }

  lemma {:induction false} EdgesConform(edges: seq<Edge>, inputs: seq<seq<nat>>, st: State, seen: set<nat>, cursor: nat)
    requires Sees(st, seen) && End(st) <= cursor && VerifyEdges(edges, inputs, st, cursor).Some?
    ensures EdgesShaped(edges, inputs, seen, cursor)
    decreases |edges|
  {
    if edges != [] {
      EnterSees(st, cursor, seen);
      EdgeConforms(edges[0], |inputs[edges[0].arm]|, Enter(st, cursor), seen);
      EdgeCounts(edges[0], |inputs[edges[0].arm]|, st, cursor);
      EdgesConform(edges[1..], inputs, st, seen, VerifyEdge(edges[0], |inputs[edges[0].arm]|, Enter(st, cursor)).value);
    }
  }

  lemma ConnectedReaches(selection: Selection, arms: nat)
    ensures Connected(selection, arms) <==> Reaches(selection, arms)
  {
    assert forall k: nat :: Enters(selection, k) <==> k in Targets(selection);
  }

  lemma {:induction false} HasYieldIff(arms: Arms)
    ensures HasYield(arms) <==> SomeYields(arms)
  {
    if !arms.NoArms? {
      HasYieldIff(arms.others);
      if arms.Yielding? {
        assert YieldsAt(arms, 0);
      }
      if k: nat :| YieldsAt(arms.others, k) {
        assert YieldsAt(arms, k + 1);
      }
      if k: nat :| YieldsAt(arms, k) {
        assert k == 0 || YieldsAt(arms.others, k - 1);
      }
    }
  }

  lemma SelectionConforms(selection: Selection, inputs: seq<seq<nat>>, st: State, seen: set<nat>, cursor: nat)
    requires Sees(st, seen) && End(st) <= cursor && VerifySelection(selection, inputs, st, cursor).Some?
    ensures SelectionShaped(selection, inputs, seen, cursor)
  {
    ConnectedReaches(selection, |inputs|);
    EdgesConform(selection.edges, inputs, st, seen, cursor);
  }

  // ---------- Joins and loops

  lemma StepWithin(op: Op, st: State, active: Option<ActiveLoop>)
    requires WithinAny(st, active) && Step(op, st).Some?
    ensures WithinAny(Step(op, st).value, active)
  {
  }

  lemma {:induction false} OpsConform(ops: Ops, st: State, active: Option<ActiveLoop>, seen: set<nat>, cursor: nat)
    requires Sees(st, seen) && WithinAny(st, active) && Steps(ops, st).Some? && End(Steps(ops, st).value) <= cursor
    requires VerifyNested(ops, st, active, cursor).Some?
    ensures OpsShaped(ops, seen, CodeOf(active), cursor)
    decreases ops, 0
  {
    if ops.Cons? {
      StepSees(ops.head, st, seen);
      StepWithin(ops.head, st, active);
      OpConforms(ops.head, st, active, seen, cursor);
      ControlCounts(ops.head, st, active, cursor);
      OpsConform(ops.tail, Step(ops.head, st).value, active, Plus(seen, Made(ops.head)),
                 VerifyControl(ops.head, st, active, cursor).value);
    }
  }

  lemma {:induction false} OpConforms(op: Op, st: State, active: Option<ActiveLoop>, seen: set<nat>, cursor: nat)
    requires Sees(st, seen) && WithinAny(st, active) && Step(op, st).Some? && End(Step(op, st).value) <= cursor
    requires VerifyControl(op, st, active, cursor).Some?
    ensures OpShaped(op, seen, CodeOf(active), cursor)
    decreases op, 1
  {
    StepSees(op, st, seen);
    if op.Join? {
      StepMoves(op, st);
      HasYieldIff(op.arms);
      JoinConforms(op, st, active, seen, cursor);
    } else if op.Loop? {
      var pre := DischargeAll(st, Spent(op)).value;
      DischargeAllChecks(st, Spent(op));
      BodyConforms(op, pre, seen, cursor);
    }
  }

  lemma {:induction false} JoinConforms(op: Op, st: State, active: Option<ActiveLoop>, seen: set<nat>, cursor: nat)
    requires op.Join? && Sees(st, seen) && WithinAny(st, active) && End(st) <= cursor && AllActive(st, op.entering)
    requires VerifyControl(op, st, active, cursor).Some?
    ensures SelectionShaped(op.selection, Inputs(op.arms), seen, cursor)
    ensures ArmsShaped(op.arms, op.entering, |op.outputs|, seen, CodeOf(active), cursor + EdgesCount(op.selection.edges))
    decreases op, 0
  {
    SelectionConforms(op.selection, Inputs(op.arms), st, seen, cursor);
    EdgesCounts(op.selection.edges, Inputs(op.arms), st, cursor);
    ArmsConform(op.arms, op.entering, |op.outputs|, st, active, seen,
                VerifySelection(op.selection, Inputs(op.arms), st, cursor).value);
  }

  lemma {:induction false} ArmsConform(arms: Arms, entering: seq<nat>, outputs: nat, st: State, active: Option<ActiveLoop>,
                                       seen: set<nat>, cursor: nat)
    requires Sees(st, seen) && WithinAny(st, active) && End(st) <= cursor && AllActive(st, entering)
    requires VerifyArms(arms, entering, outputs, st, active, cursor).Some?
    ensures ArmsShaped(arms, entering, outputs, seen, CodeOf(active), cursor)
    decreases arms, 1
  {
    if !arms.NoArms? {
      var start := IntroduceAll(Enter(st, cursor), arms.inputs).value;
      ArmStarts(arms.inputs, st, active, seen, cursor);
      ArmConforms(arms, entering, outputs, st, start, active, Plus(seen, arms.inputs));
      ArmCounts(arms, entering, outputs, st, start, active, cursor);
      ArmsConform(arms.others, entering, outputs, st, active, seen, VerifyArm(arms, entering, outputs, st, start, active).value);
    }
  }

  lemma ArmStarts(inputs: seq<nat>, st: State, active: Option<ActiveLoop>, seen: set<nat>, cursor: nat)
    requires Sees(st, seen) && WithinAny(st, active) && End(st) <= cursor && IntroduceAll(Enter(st, cursor), inputs).Some?
    ensures Consecutive(inputs, cursor)
    ensures var start := IntroduceAll(Enter(st, cursor), inputs).value;
            && End(start) == cursor + |inputs| && Sees(start, Plus(seen, inputs)) && WithinAny(start, active)
            && start.discharged == st.discharged
  {
    EnterSees(st, cursor, seen);
    EnterWithinAny(st, cursor, active);
    IntroduceAllChecks(Enter(st, cursor), inputs);
  }

  lemma {:induction false} ArmConforms(arms: Arms, entering: seq<nat>, outputs: nat, st: State, start: State,
                                       active: Option<ActiveLoop>, seen: set<nat>)
    requires !arms.NoArms? && Sound(st) && Sees(start, seen) && WithinAny(start, active) && AllActive(st, entering)
    requires start.enclosing == Captured(st) && start.discharged == st.discharged && End(st) <= start.first
    requires VerifyArm(arms, entering, outputs, st, start, active).Some?
    ensures ArmShaped(arms, entering, outputs, seen, CodeOf(active), start.first, End(start))
    decreases arms, 0
  {
    if arms.Yielding? {
      YieldConforms(arms.ops, arms.transfers, entering, outputs, st, start, active, seen);
    } else {
      BlockConforms(arms.body, active.value, start, seen);
    }
  }

  lemma {:induction false} YieldConforms(ops: Ops, transfers: seq<nat>, entering: seq<nat>, outputs: nat, st: State, start: State,
                                         active: Option<ActiveLoop>, seen: set<nat>)
    requires Sound(st) && Sees(start, seen) && WithinAny(start, active) && AllActive(st, entering)
    requires start.enclosing == Captured(st) && start.discharged == st.discharged && End(st) <= start.first
    requires VerifyYield(ops, transfers, entering, outputs, st, start, active).Some?
    ensures YieldShaped(ops, transfers, entering, outputs, seen, CodeOf(active), start.first, End(start))
    decreases ops, 1
  {
    var end := Steps(ops, start).value;
    StepsSee(ops, start, seen);
    OpsConform(ops, start, active, seen, End(end));
    ConsumeAllChecks(end, transfers, None);
    EnteringSpent(ops, entering, st, start);
    YieldHasShape(ops, transfers, entering, outputs, seen, active, start.first, End(start), End(end));
  }

  lemma YieldHasShape(ops: Ops, transfers: seq<nat>, entering: seq<nat>, outputs: nat, seen: set<nat>,
                      active: Option<ActiveLoop>, first: nat, n: nat, fence: nat)
    requires InOrder(ops, n) && fence == n + OwnCount(ops) && OpsShaped(ops, seen, CodeOf(active), fence)
    requires forall o: nat :: o < first ==> (Spends(ops, o) <==> o in entering)
    requires |transfers| == outputs && From(first, transfers) && Visible(SeenAfter(ops, seen), transfers)
    ensures YieldShaped(ops, transfers, entering, outputs, seen, CodeOf(active), first, n)
  {
  }

  lemma EnteringSpent(ops: Ops, entering: seq<nat>, st: State, start: State)
    requires Sound(st) && Sound(start) && AllActive(st, entering) && Steps(ops, start).Some?
    requires start.enclosing == Captured(st) && start.discharged == st.discharged && End(st) <= start.first
    requires EnteringExact(entering, st.discharged, Steps(ops, start).value)
    ensures forall o: nat :: o < start.first ==> (Spends(ops, o) <==> o in entering)
  {
    forall o: nat | o < start.first
      ensures Spends(ops, o) <==> o in entering
    {
      StepsFlag(ops, start, o);
      FindAppend(st.enclosing, Scope(st.first, st.owners), o);
    }
  }

  lemma {:induction false} AcquisitionsSee(acquisitions: seq<Acquisition>, st: State, seen: set<nat>)
    requires Sees(st, seen) && AcquireAll(acquisitions, st).Some?
    ensures AcquisitionsShaped(acquisitions, seen, End(st))
    ensures var end := AcquireAll(acquisitions, st).value;
            End(end) == End(st) + |acquisitions| && end.discharged == st.discharged && Sound(end)
    decreases |acquisitions|
  {
    if acquisitions != [] {
      var op, n := Acquire(acquisitions[0].source, acquisitions[0].owner), End(st);
      StepSees(op, st, seen);
      assert Plus(seen, Made(op)) == seen + {n};
      AcquisitionsSee(acquisitions[1..], Step(op, st).value, seen + {n});
    }
  }

  /** Where a loop's headers take their values, nothing but what was before the loop is live. */
  lemma BeforeHeadersSees(acquisitions: seq<Acquisition>, headers: seq<Header>, pre: State, cursor: nat, seen: set<nat>)
    requires Sees(pre, seen) && End(pre) <= cursor && InitializeLoop(acquisitions, headers, pre, cursor).Some?
    ensures AcquisitionsShaped(acquisitions, seen, cursor)
    ensures var consumed := BeforeHeaders(acquisitions, headers, pre, cursor).value;
            && consumed.enclosing == Captured(pre) && consumed.discharged == pre.discharged && consumed.first == cursor
            && End(consumed) == cursor + |acquisitions| && Sees(consumed, seen)
  {
    var entered, own := Enter(pre, cursor), Initials(acquisitions, headers, false);
    EnterSees(pre, cursor, seen);
    AcquisitionsSee(acquisitions, entered, seen);
    var acquired := AcquireAll(acquisitions, entered).value;
    ConsumeAllChecks(acquired, own, None);
    ConsumeKeepsFlags(acquired, own);
    var consumed := BeforeHeaders(acquisitions, headers, pre, cursor).value;
    forall o: nat | Active(consumed, o)
      ensures o in seen
    {
      assert Active(entered, o);
    }
  }

  lemma {:induction false} BodyConforms(op: Op, pre: State, seen: set<nat>, cursor: nat)
    requires op.Loop? && Sees(pre, seen) && End(pre) <= cursor
    requires InitializeLoop(op.acquisitions, op.headers, pre, cursor).Some?
    requires VerifyBlock(op.body, ActiveLoop(pre, cursor, |op.headers|, |op.outputs|),
                         InitializeLoop(op.acquisitions, op.headers, pre, cursor).value).Some?
    ensures AcquisitionsShaped(op.acquisitions, seen, cursor)
    ensures Consecutive(Parameters(op.headers), cursor + |op.acquisitions|)
    ensures BlockShaped(op.body, Plus(seen, Parameters(op.headers)), Around(cursor, |op.headers|, |op.outputs|),
                        cursor + |op.acquisitions| + |op.headers|)
    decreases op.body, 1
  {
    var loop := ActiveLoop(pre, cursor, |op.headers|, |op.outputs|);
    BeforeHeadersSees(op.acquisitions, op.headers, pre, cursor, seen);
    ParametersCount(op.headers);
    IntroduceAllChecks(BeforeHeaders(op.acquisitions, op.headers, pre, cursor).value, Parameters(op.headers));
    EnterLoop(pre, cursor, |op.headers|, |op.outputs|);
    BlockConforms(op.body, loop, InitializeLoop(op.acquisitions, op.headers, pre, cursor).value,
                  Plus(seen, Parameters(op.headers)));
  }

  /** No owner that was live before the loop has been discharged. */
  ghost predicate Untouched(st: State, loop: ActiveLoop) {
    forall o: nat :: Find(Captured(loop.pre), o) == Some(true) && o !in loop.pre.discharged ==> o !in st.discharged
  }

  /** A tail that ends in edges can only be reached with those still live. */
  lemma {:induction false} TailFindsUntouched(tail: Tail, loop: ActiveLoop, end: State, cursor: nat)
    requires Within(end, loop) && Sound(end) && End(end) <= cursor && VerifyTail(tail, loop, end, cursor).Some?
    ensures Untouched(end, loop)
    decreases tail
  {
    match tail
    case LoopEdge(_, transfers) =>
      EdgeFindsUntouched(loop, ConsumeAll(end, transfers, Some(loop.floor)).value, end);
    case Match(selection, arms) =>
      assert selection.edges[0].arm < |LoopInputs(arms)|;
      var after := VerifySelection(selection, LoopInputs(arms), end, cursor).value;
      var start := IntroduceAll(Enter(end, after), arms.inputs).value;
      EnterSound(end, after);
      EnterWithin(end, after, loop);
      IntroduceAllChecks(Enter(end, after), arms.inputs);
      BlockFindsUntouched(arms.body, loop, start);
  }

  lemma {:induction false} BlockFindsUntouched(block: Block, loop: ActiveLoop, start: State)
    requires Within(start, loop) && Sound(start) && VerifyBlock(block, loop, start).Some?
    ensures Untouched(start, loop)
    decreases block
  {
    var end := Steps(block.ops, start).value;
    StepsFlag(block.ops, start, 0);
    TailFindsUntouched(block.tail, loop, end, VerifyNested(block.ops, start, Some(loop), End(end)).value);
  }

  lemma EdgeFindsUntouched(loop: ActiveLoop, done: State, end: State)
    requires Within(end, loop) && LoopComplete(loop, done) && done.first == end.first && end.discharged <= done.discharged
    ensures Untouched(end, loop)
  {
    forall o: nat | Find(Captured(loop.pre), o) == Some(true)
      ensures o < done.first
    {
      FindAppend(loop.pre.enclosing, Scope(loop.pre.first, loop.pre.owners), o);
    }
  }

  lemma BlockSpends(block: Block, loop: ActiveLoop, initial: State)
    requires Sound(initial) && Within(initial, loop) && VerifyBlock(block, loop, initial).Some?
    ensures forall o: nat :: Spends(block.ops, o) ==> loop.floor <= o
  {
    var end := Steps(block.ops, initial).value;
    StepsFlag(block.ops, initial, 0);
    TailFindsUntouched(block.tail, loop, end, VerifyNested(block.ops, initial, Some(loop), End(end)).value);
    forall o: nat | Spends(block.ops, o)
      ensures loop.floor <= o
    {
      StepsFlag(block.ops, initial, o);
    }
  }

  lemma StepsWithin(ops: Ops, st: State, loop: ActiveLoop)
    requires Within(st, loop) && Steps(ops, st).Some?
    ensures Within(Steps(ops, st).value, loop)
  {
  }

  lemma {:induction false} BlockConforms(block: Block, loop: ActiveLoop, initial: State, seen: set<nat>)
    requires Sees(initial, seen) && Within(initial, loop) && VerifyBlock(block, loop, initial).Some?
    ensures BlockShaped(block, seen, Code(loop), End(initial))
    decreases block, 0
  {
    var end := Steps(block.ops, initial).value;
    StepsSee(block.ops, initial, seen);
    BlockSpends(block, loop, initial);
    OpsConform(block.ops, initial, Some(loop), seen, End(end));
    NestedCounts(block.ops, initial, Some(loop), End(end));
    StepsWithin(block.ops, initial, loop);
    var cursor := VerifyNested(block.ops, initial, Some(loop), End(end)).value;
    TailConforms(block.tail, loop, end, SeenAfter(block.ops, seen), cursor);
    BlockHasShape(block, loop, seen, End(initial), End(end), cursor);
  }

  lemma BlockHasShape(block: Block, loop: ActiveLoop, seen: set<nat>, n: nat, fence: nat, cursor: nat)
    requires InOrder(block.ops, n) && (forall o: nat :: Spends(block.ops, o) ==> loop.floor <= o)
    requires fence == n + OwnCount(block.ops) && OpsShaped(block.ops, seen, CodeOf(Some(loop)), fence)
    requires cursor == fence + NestedCount(block.ops)
    requires TailShaped(block.tail, SeenAfter(block.ops, seen), Code(loop), cursor)
    ensures BlockShaped(block, seen, Code(loop), n)
  {
  }

  lemma {:induction false} TailConforms(tail: Tail, loop: ActiveLoop, end: State, seen: set<nat>, cursor: nat)
    requires Sees(end, seen) && Within(end, loop) && End(end) <= cursor && VerifyTail(tail, loop, end, cursor).Some?
    ensures TailShaped(tail, seen, Code(loop), cursor)
    decreases tail, 0
  {
    match tail
    case LoopEdge(_, transfers) => ConsumeAllChecks(end, transfers, Some(loop.floor));
    case Match(selection, arms) =>
      SelectionConforms(selection, LoopInputs(arms), end, seen, cursor);
      EdgesCounts(selection.edges, LoopInputs(arms), end, cursor);
      var after := VerifySelection(selection, LoopInputs(arms), end, cursor).value;
      LoopArmsConform(arms, loop, end, seen, after);
      MatchHasShape(tail, seen, Code(loop), cursor, after);
  }

  lemma MatchHasShape(tail: Tail, seen: set<nat>, around: Around, n: nat, after: nat)
    requires tail.Match? && SelectionShaped(tail.selection, LoopInputs(tail.arms), seen, n)
    requires after == n + EdgesCount(tail.selection.edges) && LoopArmsShaped(tail.arms, seen, around, after)
    ensures TailShaped(tail, seen, around, n)
  {
  }

  lemma {:induction false} LoopArmsConform(arms: LoopArms, loop: ActiveLoop, st: State, seen: set<nat>, cursor: nat)
    requires Sees(st, seen) && Within(st, loop) && End(st) <= cursor && VerifyLoopArms(arms, loop, st, cursor).Some?
    ensures LoopArmsShaped(arms, seen, Code(loop), cursor)
    decreases arms, 0
  {
    if arms.LoopArm? {
      var start := IntroduceAll(Enter(st, cursor), arms.inputs).value;
      ArmStarts(arms.inputs, st, Some(loop), seen, cursor);
      BlockConforms(arms.body, loop, start, Plus(seen, arms.inputs));
      BlockCounts(arms.body, loop, start);
      var after := VerifyBlock(arms.body, loop, start).value;
      LoopArmsConform(arms.others, loop, st, seen, after);
      LoopArmsHaveShape(arms, seen, Code(loop), cursor, End(start), after);
    }
  }

  lemma LoopArmsHaveShape(arms: LoopArms, seen: set<nat>, around: Around, n: nat, start: nat, after: nat)
    requires arms.LoopArm? && Consecutive(arms.inputs, n) && start == n + |arms.inputs| && after == start + BlockCount(arms.body)
    requires BlockShaped(arms.body, Plus(seen, arms.inputs), around, start) && LoopArmsShaped(arms.others, seen, around, after)
    ensures LoopArmsShaped(arms, seen, around, n)
  {
  }

  /** A function that the verifier accepts has the shape that it asks of code. */
  lemma AcceptedIsShaped(f: Function)
    requires VerifyFunction(f)
    ensures FunctionShaped(f)
  {
    StepsSee(f.ops, START, {});
    OpsConform(f.ops, START, None, {}, End(Steps(f.ops, START).value));
  }
}
