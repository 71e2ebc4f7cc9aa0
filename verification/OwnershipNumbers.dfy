/** Where the ownership verifier's numbers end depends on the code alone. */
module OwnershipNumbers {
  import opened Options
  import opened OwnershipVerifier
  import opened OwnershipShape

  lemma {:induction false} DischargeAllCounts(st: State, os: seq<nat>)
    requires DischargeAll(st, os).Some?
    ensures End(DischargeAll(st, os).value) == End(st)
    decreases |os|
  {
    if os != [] {
      DischargeAllCounts(Discharge(st, os[0]).value, os[1..]);
    }
  }

  lemma {:induction false} ConsumeAllCounts(st: State, os: seq<nat>, floor: Option<nat>)
    requires ConsumeAll(st, os, floor).Some?
    ensures End(ConsumeAll(st, os, floor).value) == End(st)
    decreases |os|
  {
    if os != [] {
      ConsumeAllCounts(Discharge(st, os[0]).value, os[1..], floor);
    }
  }

  lemma {:induction false} IntroduceAllCounts(st: State, os: seq<nat>)
    requires IntroduceAll(st, os).Some?
    ensures End(IntroduceAll(st, os).value) == End(st) + |os|
    decreases |os|
  {
    if os != [] {
      IntroduceAllCounts(Introduce(st, os[0]).value, os[1..]);
    }
  }

  lemma StepCounts(op: Op, st: State)
    requires Step(op, st).Some?
    ensures End(Step(op, st).value) == End(st) + |Made(op)|
  {
    match op
    case Define(_, consumed, _) => DischargeAllCounts(st, consumed);
    case Acquire(_, _) =>
    case Drop(_) =>
    case Join(_, entering, outputs, _) =>
      DischargeAllCounts(st, entering);
      IntroduceAllCounts(DischargeAll(st, entering).value, outputs);
    case Loop(acquisitions, headers, outputs, _) =>
      DischargeAllCounts(st, Initials(acquisitions, headers, true));
      IntroduceAllCounts(DischargeAll(st, Initials(acquisitions, headers, true)).value, outputs);
  }

  lemma {:induction false} StepsCount(ops: Ops, st: State)
    requires Steps(ops, st).Some?
    ensures End(Steps(ops, st).value) == End(st) + OwnCount(ops)
    decreases ops
  {
    if ops.Cons? {
      StepCounts(ops.head, st);
      StepsCount(ops.tail, Step(ops.head, st).value);
    }
  }

  lemma {:induction false} LocalsCounts(steps: seq<Local>, st: State)
    requires LocalSteps(steps, st).Some?
    ensures End(LocalSteps(steps, st).value) == End(st) + LocalsCount(steps)
    decreases |steps|
  {
    if steps != [] {
      StepCounts(AsOp(steps[0]), st);
      LocalsCounts(steps[1..], Step(AsOp(steps[0]), st).value);
    }
  }

  lemma {:induction false} AcquireAllCounts(acquisitions: seq<Acquisition>, st: State)
    requires AcquireAll(acquisitions, st).Some?
    ensures End(AcquireAll(acquisitions, st).value) == End(st) + |acquisitions|
    decreases |acquisitions|
  {
    if acquisitions != [] {
      AcquireAllCounts(acquisitions[1..], Step(Acquire(acquisitions[0].source, acquisitions[0].owner), st).value);
    }
  }

  lemma {:induction false} ParametersCount(headers: seq<Header>)
    ensures |Parameters(headers)| == |headers|
  {
    if headers != [] {
      ParametersCount(headers[1..]);
    }
  }

  lemma EdgeCounts(edge: Edge, inputs: nat, st: State, n: nat)
    requires VerifyEdge(edge, inputs, Enter(st, n)).Some?
    ensures VerifyEdge(edge, inputs, Enter(st, n)).value == n + LocalsCount(edge.steps)
  {
    LocalsCounts(edge.steps, Enter(st, n));
    ConsumeAllCounts(LocalSteps(edge.steps, Enter(st, n)).value, edge.transfers, None);
  }

  lemma {:induction false} EdgesCounts(edges: seq<Edge>, inputs: seq<seq<nat>>, st: State, n: nat)
    requires VerifyEdges(edges, inputs, st, n).Some?
    ensures VerifyEdges(edges, inputs, st, n).value == n + EdgesCount(edges)
    decreases |edges|
  {
    if edges != [] {
      EdgeCounts(edges[0], |inputs[edges[0].arm]|, st, n);
      EdgesCounts(edges[1..], inputs, st, VerifyEdge(edges[0], |inputs[edges[0].arm]|, Enter(st, n)).value);
    }
  }

  lemma {:induction false} NestedCounts(ops: Ops, st: State, active: Option<ActiveLoop>, n: nat)
    requires VerifyNested(ops, st, active, n).Some?
    ensures VerifyNested(ops, st, active, n).value == n + NestedCount(ops)
    decreases ops, 0
  {
    if ops.Cons? {
      ControlCounts(ops.head, st, active, n);
      NestedCounts(ops.tail, Step(ops.head, st).value, active, VerifyControl(ops.head, st, active, n).value);
    }
  }

  lemma {:induction false} ControlCounts(op: Op, st: State, active: Option<ActiveLoop>, n: nat)
    requires VerifyControl(op, st, active, n).Some?
    ensures VerifyControl(op, st, active, n).value == n + NestedIn(op)
    decreases op
  {
    match op
    case Join(selection, entering, outputs, arms) =>
      EdgesCounts(selection.edges, Inputs(arms), st, n);
      ArmsCounts(arms, entering, |outputs|, st, active, VerifySelection(selection, Inputs(arms), st, n).value);
    case Loop(acquisitions, headers, outputs, body) =>
      var pre := DischargeAll(st, Initials(acquisitions, headers, true)).value;
      InitializeCounts(acquisitions, headers, pre, n);
      BlockCounts(body, ActiveLoop(pre, n, |headers|, |outputs|), InitializeLoop(acquisitions, headers, pre, n).value);
    case _ =>
  }

  lemma InitializeCounts(acquisitions: seq<Acquisition>, headers: seq<Header>, pre: State, n: nat)
    requires InitializeLoop(acquisitions, headers, pre, n).Some?
    ensures End(InitializeLoop(acquisitions, headers, pre, n).value) == n + |acquisitions| + |headers|
  {
    AcquireAllCounts(acquisitions, Enter(pre, n));
    ConsumeAllCounts(AcquireAll(acquisitions, Enter(pre, n)).value, Initials(acquisitions, headers, false), None);
    IntroduceAllCounts(BeforeHeaders(acquisitions, headers, pre, n).value, Parameters(headers));
    ParametersCount(headers);
  }

  lemma {:induction false} ArmsCounts(arms: Arms, entering: seq<nat>, outputs: nat, st: State, active: Option<ActiveLoop>, n: nat)
    requires VerifyArms(arms, entering, outputs, st, active, n).Some?
    ensures VerifyArms(arms, entering, outputs, st, active, n).value == n + ArmsCount(arms)
    decreases arms, 1
  {
    if !arms.NoArms? {
      var start := IntroduceAll(Enter(st, n), arms.inputs).value;
      IntroduceAllCounts(Enter(st, n), arms.inputs);
      ArmCounts(arms, entering, outputs, st, start, active, n);
      ArmsCounts(arms.others, entering, outputs, st, active, VerifyArm(arms, entering, outputs, st, start, active).value);
    }
  }

  lemma {:induction false} ArmCounts(arms: Arms, entering: seq<nat>, outputs: nat, st: State, start: State,
                                     active: Option<ActiveLoop>, n: nat)
    requires !arms.NoArms? && VerifyArm(arms, entering, outputs, st, start, active).Some? && End(start) == n + |arms.inputs|
    ensures VerifyArm(arms, entering, outputs, st, start, active).value == n + ArmCount(arms)
    decreases arms, 0
  {
    if arms.Yielding? {
      StepsCount(arms.ops, start);
      NestedCounts(arms.ops, start, active, End(Steps(arms.ops, start).value));
    } else {
      BlockCounts(arms.body, active.value, start);
    }
  }

  lemma {:induction false} BlockCounts(block: Block, loop: ActiveLoop, initial: State)
    requires VerifyBlock(block, loop, initial).Some?
    ensures VerifyBlock(block, loop, initial).value == End(initial) + BlockCount(block)
    decreases block, 0
  {
    var end := Steps(block.ops, initial).value;
    StepsCount(block.ops, initial);
    NestedCounts(block.ops, initial, Some(loop), End(end));
    TailCounts(block.tail, loop, end, VerifyNested(block.ops, initial, Some(loop), End(end)).value);
  }

  lemma {:induction false} TailCounts(tail: Tail, loop: ActiveLoop, end: State, n: nat)
    requires VerifyTail(tail, loop, end, n).Some?
    ensures VerifyTail(tail, loop, end, n).value == n + TailCount(tail)
    decreases tail, 0
  {
    if tail.Match? {
      EdgesCounts(tail.selection.edges, LoopInputs(tail.arms), end, n);
      LoopArmsCounts(tail.arms, loop, end, VerifySelection(tail.selection, LoopInputs(tail.arms), end, n).value);
    }
  }

  lemma {:induction false} LoopArmsCounts(arms: LoopArms, loop: ActiveLoop, st: State, n: nat)
    requires VerifyLoopArms(arms, loop, st, n).Some?
    ensures VerifyLoopArms(arms, loop, st, n).value == n + LoopArmsCount(arms)
    decreases arms, 0
  {
    if arms.LoopArm? {
      var start := IntroduceAll(Enter(st, n), arms.inputs).value;
      IntroduceAllCounts(Enter(st, n), arms.inputs);
      BlockCounts(arms.body, loop, start);
      LoopArmsCounts(arms.others, loop, st, VerifyBlock(arms.body, loop, start).value);
    }
  }
}
