/** Executions of code of the right shape, whatever is live: an owner that the code cannot see
    stays live until the end or the code faults, and there is always some way to the end. */
module OwnershipWitness {
  import opened Options
  import opened OwnershipVerifier
  import opened OwnershipRuns
  import opened OwnershipShape

  // ---------- Owners out of sight

  /** Where this execution gets to, the owner is still live. */
  predicate Kept(out: Outcome, o: nat) {
    match out
    case Done(live) => o in live
    case Gone(_, live) => o in live
    case _ => true
  }

  lemma {:induction false} RemoveKeeps(live: set<nat>, os: seq<nat>, o: nat)
    requires o in live && o !in os && Remove(live, os).Some?
    ensures o in Remove(live, os).value
    decreases |os|
  {
    if os != [] {
      RemoveKeeps(live - {os[0]}, os[1..], o);
    }
  }

  lemma {:induction false} AddKeeps(live: set<nat>, os: seq<nat>, o: nat)
    requires o in live && Add(live, os).Some?
    ensures o in Add(live, os).value && o !in os
    decreases |os|
  {
    if os != [] {
      AddKeeps(live + {os[0]}, os[1..], o);
    }
  }

  /** Moving owners in sight keeps one that is not, unless it would be made again. */
  lemma MoveKeeps(live: set<nat>, from: seq<nat>, to: seq<nat>, o: nat)
    requires o in live && o !in from
    ensures Kept(Move(live, from, to), o) && (Move(live, from, to).Done? ==> o !in to)
    ensures Move(live, from, to).Fault? || Move(live, from, to).Done?
  {
    if Remove(live, from).Some? {
      RemoveKeeps(live, from, o);
      var left := Remove(live, from).value;
      if Add(left, to).Some? {
        AddKeeps(left, to, o);
      }
    }
  }

  lemma NotSpent(seen: set<nat>, os: seq<nat>, o: nat)
    requires Visible(seen, os) && o !in seen
    ensures o !in os
  {
  }

  /** Operations without control, as moves. */
  lemma PlainMoves(op: Op, live: set<nat>)
    requires !op.Join? && !op.Loop?
    ensures RunPlain(op, live).Fault? || RunPlain(op, live) == Move(live, Spent(op), Made(op))
    ensures Move(live, Spent(op), Made(op)).Fault? || Move(live, Spent(op), Made(op)).Done?
  {
    match op
    case Drop(owner) =>
      if Remove(live, [owner]).Some? {
        assert Add(Remove(live, [owner]).value, []) == Remove(live, [owner]);
      }
    case _ =>
  }

  lemma PlainFrame(op: Op, seen: set<nat>, live: set<nat>, o: nat)
    requires !op.Join? && !op.Loop? && Visible(seen, Spent(op)) && o in live && o !in seen
    ensures Kept(RunPlain(op, live), o) && (RunPlain(op, live).Done? ==> o !in Plus(seen, Made(op)))
  {
    PlainMoves(op, live);
    NotSpent(seen, Spent(op), o);
    MoveKeeps(live, Spent(op), Made(op), o);
  }

  lemma {:induction false} LocalsFrame(steps: seq<Local>, seen: set<nat>, first: nat, n: nat, live: set<nat>, o: nat)
    requires LocalsShaped(steps, seen, first, n) && o in live && o !in seen
    ensures Kept(RunLocals(steps, live), o) && (RunLocals(steps, live).Done? ==> o !in LocalsSeen(steps, seen))
    decreases |steps|
  {
    if steps != [] {
      var op := AsOp(steps[0]);
      PlainFrame(op, seen, live, o);
      if RunPlain(op, live).Done? {
        LocalsFrame(steps[1..], Plus(seen, Made(op)), first, n + |Made(op)|, RunPlain(op, live).live, o);
      }
    }
  }

  lemma EdgeFrame(selection: Selection, e: nat, inputs: seq<nat>, seen: set<nat>, n: nat, live: set<nat>, o: nat)
    requires e < |selection.edges| && EdgeShaped(selection.edges[e], |inputs|, seen, n) && o in live && o !in seen
    ensures var out := RunEdge(selection, e, inputs, live);
            Kept(out, o) && (out.Done? ==> o !in Plus(seen, inputs))
  {
    var edge := selection.edges[e];
    LocalsFrame(edge.steps, seen, n, n, live, o);
    if RunLocals(edge.steps, live).Done? {
      NotSpent(LocalsSeen(edge.steps, seen), edge.transfers, o);
      MoveKeeps(RunLocals(edge.steps, live).live, edge.transfers, inputs, o);
    }
  }

  lemma {:induction false} EdgeShapedAt(edges: seq<Edge>, inputs: seq<seq<nat>>, seen: set<nat>, n: nat, e: nat) returns (at: nat)
    requires EdgesShaped(edges, inputs, seen, n) && e < |edges|
    ensures n <= at && edges[e].arm < |inputs| && EdgeShaped(edges[e], |inputs[edges[e].arm]|, seen, at)
    decreases |edges|
  {
    if e == 0 {
      at := n;
    } else {
      at := EdgeShapedAt(edges[1..], inputs, seen, n + LocalsCount(edges[0].steps), e - 1);
    }
  }

  lemma {:induction false} OpsFrame(ops: Ops, picks: seq<Pick>, seen: set<nat>, around: Option<Around>, n: nat,
                                    live: set<nat>, o: nat)
    requires OpsShaped(ops, seen, around, n) && o in live && o !in seen
    ensures Kept(RunOps(ops, picks, live), o) && (RunOps(ops, picks, live).Done? ==> o !in SeenAfter(ops, seen))
    decreases ops, 0, 0
  {
    if ops.Cons? && picks != [] {
      OpFrame(ops.head, picks[0], seen, around, n, live, o);
      var out := RunOp(ops.head, picks[0], live);
      if out.Done? {
        OpsFrame(ops.tail, picks[1..], Plus(seen, Made(ops.head)), around, n + NestedIn(ops.head), out.live, o);
      }
    }
  }

  lemma {:induction false} OpFrame(op: Op, pick: Pick, seen: set<nat>, around: Option<Around>, n: nat, live: set<nat>, o: nat)
    requires OpShaped(op, seen, around, n) && o in live && o !in seen
    ensures Kept(RunOp(op, pick, live), o) && (RunOp(op, pick, live).Done? ==> o !in Plus(seen, Made(op)))
    decreases op, 1, 0
  {
    match op
    case Join(selection, entering, outputs, arms) =>
      if pick.Through? && pick.edge < |selection.edges| {
        var at := EdgeShapedAt(selection.edges, Inputs(arms), seen, n, pick.edge);
        ArmsFrame(arms, selection.edges[pick.edge].arm, selection, pick, entering, outputs, seen, around,
                  n + EdgesCount(selection.edges), at, live, o);
      }
    case Loop(acquisitions, headers, outputs, body) =>
      if pick.Rounds? {
        LoopFrame(op, pick.rounds, seen, around, n, live, o);
      }
    case _ => PlainFrame(op, seen, live, o);
  }

  lemma {:induction false} ArmsFrame(arms: Arms, k: nat, selection: Selection, pick: Pick, entering: seq<nat>,
                                     outputs: seq<nat>, seen: set<nat>, around: Option<Around>, n: nat, at: nat,
                                     live: set<nat>, o: nat)
    requires ArmsShaped(arms, entering, |outputs|, seen, around, n) && o in live && o !in seen
    requires pick.Through? && pick.edge < |selection.edges| && k < |Inputs(arms)|
    requires EdgeShaped(selection.edges[pick.edge], |Inputs(arms)[k]|, seen, at)
    ensures var out := RunArms(arms, k, selection, pick, outputs, live);
            Kept(out, o) && (out.Done? ==> o !in outputs)
    decreases arms, 1, 0
  {
    if k > 0 {
      ArmsFrame(arms.others, k - 1, selection, pick, entering, outputs, seen, around, n + ArmCount(arms), at, live, o);
    } else {
      EdgeFrame(selection, pick.edge, arms.inputs, seen, at, live, o);
      var out := RunEdge(selection, pick.edge, arms.inputs, live);
      if out.Done? {
        ArmFrame(arms, pick, entering, outputs, Plus(seen, arms.inputs), around, n, n + |arms.inputs|, out.live, o);
      }
    }
  }

  lemma {:induction false} ArmFrame(arms: Arms, pick: Pick, entering: seq<nat>, outputs: seq<nat>, seen: set<nat>,
                                    around: Option<Around>, first: nat, n: nat, live: set<nat>, o: nat)
    requires !arms.NoArms? && ArmShaped(arms, entering, |outputs|, seen, around, first, n) && pick.Through?
    requires o in live && o !in seen
    ensures var out := RunArm(arms, pick, outputs, live);
            Kept(out, o) && (out.Done? ==> o !in outputs)
    decreases arms, 0, 0
  {
    if arms.Yielding? {
      OpsFrame(arms.ops, pick.inside, seen, around, n + OwnCount(arms.ops), live, o);
      var out := RunOps(arms.ops, pick.inside, live);
      if out.Done? {
        NotSpent(SeenAfter(arms.ops, seen), arms.transfers, o);
        MoveKeeps(out.live, arms.transfers, outputs, o);
      }
    } else {
      BlockFrame(arms.body, pick.inside, pick.tail, seen, around.value, n, live, o);
    }
  }

  lemma {:induction false} AcquisitionsFrame(acquisitions: seq<Acquisition>, seen: set<nat>, n: nat, live: set<nat>, o: nat)
    requires AcquisitionsShaped(acquisitions, seen, n) && o in live
    ensures var out := RunAcquisitions(acquisitions, live);
            && (out.Fault? || out.Done?) && Kept(out, o)
            && (out.Done? ==> forall i :: 0 <= i < |acquisitions| ==> acquisitions[i].owner != o)
    decreases |acquisitions|
  {
    if acquisitions != [] {
      var op := Acquire(acquisitions[0].source, acquisitions[0].owner);
      PlainMoves(op, live);
      MoveKeeps(live, [], [acquisitions[0].owner], o);
      if RunPlain(op, live).Done? {
        AcquisitionsFrame(acquisitions[1..], seen + {n}, n + 1, RunPlain(op, live).live, o);
        assert forall i :: 0 < i < |acquisitions| ==> acquisitions[i] == acquisitions[1..][i - 1];
      }
    }
  }

  lemma StartFrame(acquisitions: seq<Acquisition>, headers: seq<Header>, seen: set<nat>, n: nat, live: set<nat>, o: nat)
    requires AcquisitionsShaped(acquisitions, seen, n) && Visible(seen, Initials(acquisitions, headers, true))
    requires o in live && o !in seen
    ensures var out := StartLoop(acquisitions, headers, live);
            Kept(out, o) && (out.Done? ==> o !in Parameters(headers))
  {
    var taken, own := Initials(acquisitions, headers, true), Initials(acquisitions, headers, false);
    NotSpent(seen, taken, o);
    if Remove(live, taken).Some? {
      RemoveKeeps(live, taken, o);
      var left := Remove(live, taken).value;
      AcquisitionsFrame(acquisitions, seen, n, left, o);
      if RunAcquisitions(acquisitions, left).Done? {
        if o in own {
          InitialTaken(acquisitions, headers, false, o);
        }
        MoveKeeps(RunAcquisitions(acquisitions, left).live, own, Parameters(headers), o);
      }
    }
  }

  lemma {:induction false} LoopFrame(op: Op, rounds: seq<Round>, seen: set<nat>, around: Option<Around>, n: nat,
                                     live: set<nat>, o: nat)
    requires op.Loop? && OpShaped(op, seen, around, n) && o in live && o !in seen
    ensures var out := RunOp(op, Rounds(rounds), live);
            Kept(out, o) && (out.Done? ==> o !in op.outputs)
    decreases op, 0, 0
  {
    StartFrame(op.acquisitions, op.headers, seen, n, live, o);
    var out := StartLoop(op.acquisitions, op.headers, live);
    if out.Done? {
      RoundsFrame(op.body, Parameters(op.headers), op.outputs, rounds, Plus(seen, Parameters(op.headers)),
                  Around(n, |op.headers|, |op.outputs|), n + |op.acquisitions| + |op.headers|, out.live, o);
    }
  }

  lemma {:induction false} RoundsFrame(body: Block, parameters: seq<nat>, outputs: seq<nat>, rounds: seq<Round>,
                                       seen: set<nat>, around: Around, n: nat, live: set<nat>, o: nat)
    requires BlockShaped(body, seen, around, n) && o in live && o !in seen
    ensures var out := RunRounds(body, parameters, outputs, rounds, live);
            Kept(out, o) && (out.Done? ==> o !in outputs)
    decreases body, 1, |rounds|
  {
    if rounds != [] {
      BlockFrame(body, rounds[0].inside, rounds[0].tail, seen, around, n, live, o);
      var out := RunBlock(body, rounds[0].inside, rounds[0].tail, live);
      if out.Gone? && !out.recur && Add(out.live, outputs).Some? {
        AddKeeps(out.live, outputs, o);
      } else if out.Gone? && out.recur && Add(out.live, parameters).Some? {
        AddKeeps(out.live, parameters, o);
        RoundsFrame(body, parameters, outputs, rounds[1..], seen, around, n, Add(out.live, parameters).value, o);
      }
    }
  }

  lemma {:induction false} BlockFrame(block: Block, inside: seq<Pick>, tail: TailPick, seen: set<nat>, around: Around, n: nat,
                                      live: set<nat>, o: nat)
    requires BlockShaped(block, seen, around, n) && o in live && o !in seen
    ensures Kept(RunBlock(block, inside, tail, live), o) && !RunBlock(block, inside, tail, live).Done?
    decreases block, 0, 0
  {
    OpsFrame(block.ops, inside, seen, Some(around), n + OwnCount(block.ops), live, o);
    var out := RunOps(block.ops, inside, live);
    if out.Done? {
      TailFrame(block.tail, tail, SeenAfter(block.ops, seen), around, n + OwnCount(block.ops) + NestedCount(block.ops),
                out.live, o);
    }
  }

  lemma {:induction false} TailFrame(tail: Tail, pick: TailPick, seen: set<nat>, around: Around, n: nat, live: set<nat>, o: nat)
    requires TailShaped(tail, seen, around, n) && o in live && o !in seen
    ensures Kept(RunTail(tail, pick, live), o) && !RunTail(tail, pick, live).Done?
    decreases tail, 0, 0
  {
    match tail
    case LoopEdge(_, transfers) =>
      NotSpent(seen, transfers, o);
      if Remove(live, transfers).Some? {
        RemoveKeeps(live, transfers, o);
      }
    case Match(selection, arms) =>
      if pick.Into? && pick.edge < |selection.edges| {
        var at := EdgeShapedAt(selection.edges, LoopInputs(arms), seen, n, pick.edge);
        LoopArmsFrame(arms, selection.edges[pick.edge].arm, selection, pick, seen, around,
                      n + EdgesCount(selection.edges), at, live, o);
      }
  }

  lemma {:induction false} LoopArmsFrame(arms: LoopArms, k: nat, selection: Selection, pick: TailPick, seen: set<nat>,
                                         around: Around, n: nat, at: nat, live: set<nat>, o: nat)
    requires LoopArmsShaped(arms, seen, around, n) && o in live && o !in seen
    requires pick.Into? && pick.edge < |selection.edges| && k < |LoopInputs(arms)|
    requires EdgeShaped(selection.edges[pick.edge], |LoopInputs(arms)[k]|, seen, at)
    ensures var out := RunLoopArms(arms, k, selection, pick, live);
            Kept(out, o) && !out.Done?
    decreases arms, 0, 0
  {
    if k > 0 {
      LoopArmsFrame(arms.others, k - 1, selection, pick, seen, around, n + |arms.inputs| + BlockCount(arms.body), at, live, o);
    } else {
      EdgeFrame(selection, pick.edge, arms.inputs, seen, at, live, o);
      var out := RunEdge(selection, pick.edge, arms.inputs, live);
      if out.Done? {
        BlockFrame(arms.body, pick.inside, pick.tail, Plus(seen, arms.inputs), around, n + |arms.inputs|, out.live, o);
      }
    }
  }

  // ---------- Some way to the end

  /** The next operation is reached, or a fault. */
  predicate Ends(out: Outcome) { out.Fault? || out.Done? }

  /** The loop around is left by a break, or a fault. */
  predicate Broken(out: Outcome) { out.Fault? || (out.Gone? && !out.recur) }

  lemma {:induction false} LocalsEnd(steps: seq<Local>, live: set<nat>)
    ensures Ends(RunLocals(steps, live))
    decreases |steps|
  {
    if steps != [] {
      var op := AsOp(steps[0]);
      PlainMoves(op, live);
      if RunPlain(op, live).Done? {
        LocalsEnd(steps[1..], RunPlain(op, live).live);
      }
    }
  }

  lemma EdgeEnds(selection: Selection, e: nat, inputs: seq<nat>, live: set<nat>)
    requires e < |selection.edges|
    ensures Ends(RunEdge(selection, e, inputs, live))
  {
    LocalsEnd(selection.edges[e].steps, live);
  }

  lemma {:induction false} StartEnds(acquisitions: seq<Acquisition>, headers: seq<Header>, live: set<nat>)
    ensures Ends(StartLoop(acquisitions, headers, live))
  {
    if Remove(live, Initials(acquisitions, headers, true)).Some? {
      AcquisitionsEnd(acquisitions, Remove(live, Initials(acquisitions, headers, true)).value);
    }
  }

  lemma {:induction false} AcquisitionsEnd(acquisitions: seq<Acquisition>, live: set<nat>)
    ensures Ends(RunAcquisitions(acquisitions, live))
    decreases |acquisitions|
  {
    if acquisitions != [] {
      var op := Acquire(acquisitions[0].source, acquisitions[0].owner);
      if RunPlain(op, live).Done? {
        AcquisitionsEnd(acquisitions[1..], RunPlain(op, live).live);
      }
    }
  }

  lemma {:induction false} YieldIsThere(arms: Arms, k: nat)
    requires YieldsAt(arms, k)
    ensures k < |Inputs(arms)|
  {
    if k > 0 {
      YieldIsThere(arms.others, k - 1);
    }
  }

  lemma {:induction false} OpsEnd(ops: Ops, seen: set<nat>, around: Option<Around>, n: nat, live: set<nat>)
    returns (picks: seq<Pick>)
    requires OpsShaped(ops, seen, around, n) && LoopsEnd(ops)
    ensures Ends(RunOps(ops, picks, live))
    decreases ops, 0, 0
  {
    picks := [];
    if ops.Cons? {
      var pick := OpEnds(ops.head, seen, around, n, live);
      var out := RunOp(ops.head, pick, live);
      if out.Done? {
        var more := OpsEnd(ops.tail, Plus(seen, Made(ops.head)), around, n + NestedIn(ops.head), out.live);
        picks := [pick] + more;
        assert picks[1..] == more;
      } else {
        picks := [pick];
      }
    }
  }

  lemma {:induction false} OpEnds(op: Op, seen: set<nat>, around: Option<Around>, n: nat, live: set<nat>) returns (pick: Pick)
    requires OpShaped(op, seen, around, n) && LoopsEndIn(op)
    ensures Ends(RunOp(op, pick, live))
    decreases op, 0, 0
  {
    match op
    case Join(selection, entering, outputs, arms) =>
      var k: nat :| YieldsAt(arms, k);
      YieldIsThere(arms, k);
      assert k in Targets(selection);
      var e: nat :| e < |selection.edges| && selection.edges[e].arm == k;
      var inside, tail := ArmsEnd(arms, k, selection, e, entering, outputs, seen, around, n + EdgesCount(selection.edges), live);
      pick := Through(e, inside, tail);
    case Loop(acquisitions, headers, outputs, body) =>
      StartEnds(acquisitions, headers, live);
      pick := Rounds([]);
      var out := StartLoop(acquisitions, headers, live);
      if out.Done? {
        var inside, tail := BlockBreaks(body, Plus(seen, Parameters(headers)), Around(n, |headers|, |outputs|),
                                        n + |acquisitions| + |headers|, out.live);
        pick := Rounds([Round(inside, tail)]);
      }
    case _ =>
      PlainMoves(op, live);
      pick := Straight;
  }

  /** Arm k, entered by edge e. */
  lemma {:induction false} ArmsEnd(arms: Arms, k: nat, selection: Selection, e: nat, entering: seq<nat>, outputs: seq<nat>,
                                   seen: set<nat>, around: Option<Around>, n: nat, live: set<nat>)
    returns (inside: seq<Pick>, tail: TailPick)
    requires ArmsShaped(arms, entering, |outputs|, seen, around, n) && LoopsEndInArms(arms)
    requires e < |selection.edges| && k < |Inputs(arms)|
    ensures var out := RunArms(arms, k, selection, Through(e, inside, tail), outputs, live);
            out.Fault? || if YieldsAt(arms, k) then out.Done? else out.Gone?
    decreases arms, 1, 0
  {
    if k > 0 {
      inside, tail := ArmsEnd(arms.others, k - 1, selection, e, entering, outputs, seen, around, n + ArmCount(arms), live);
    } else {
      EdgeEnds(selection, e, arms.inputs, live);
      inside, tail := [], AtEdge;
      var out := RunEdge(selection, e, arms.inputs, live);
      if out.Done? {
        inside, tail := ArmEnds(arms, e, entering, outputs, Plus(seen, arms.inputs), around, n, n + |arms.inputs|, out.live);
      }
    }
  }

  lemma {:induction false} ArmEnds(arms: Arms, e: nat, entering: seq<nat>, outputs: seq<nat>, seen: set<nat>,
                                   around: Option<Around>, first: nat, n: nat, live: set<nat>)
    returns (inside: seq<Pick>, tail: TailPick)
    requires !arms.NoArms? && ArmShaped(arms, entering, |outputs|, seen, around, first, n) && LoopsEndInArms(arms)
    ensures var out := RunArm(arms, Through(e, inside, tail), outputs, live);
            out.Fault? || if arms.Yielding? then out.Done? else out.Gone?
    decreases arms, 0, 0
  {
    tail := AtEdge;
    if arms.Yielding? {
      inside := OpsEnd(arms.ops, seen, around, n + OwnCount(arms.ops), live);
    } else {
      inside, tail := BlockEnds(arms.body, seen, around.value, n, live);
    }
  }

  lemma {:induction false} BlockEnds(block: Block, seen: set<nat>, around: Around, n: nat, live: set<nat>)
    returns (inside: seq<Pick>, tail: TailPick)
    requires BlockShaped(block, seen, around, n) && LoopsEndInBlock(block)
    ensures RunBlock(block, inside, tail, live).Fault? || RunBlock(block, inside, tail, live).Gone?
    decreases block, 0, 0
  {
    inside := OpsEnd(block.ops, seen, Some(around), n + OwnCount(block.ops), live);
    tail := AtEdge;
    var out := RunOps(block.ops, inside, live);
    if out.Done? {
      tail := TailEnds(block.tail, SeenAfter(block.ops, seen), around, n + OwnCount(block.ops) + NestedCount(block.ops), out.live);
    }
  }

  lemma {:induction false} TailEnds(tail: Tail, seen: set<nat>, around: Around, n: nat, live: set<nat>) returns (pick: TailPick)
    requires TailShaped(tail, seen, around, n) && LoopsEndInTail(tail)
    ensures RunTail(tail, pick, live).Fault? || RunTail(tail, pick, live).Gone?
    decreases tail, 0, 0
  {
    pick := AtEdge;
    if tail.Match? {
      var k := tail.selection.edges[0].arm;
      var inside, more := LoopArmsEnd(tail.arms, k, tail.selection, 0, seen, around, n + EdgesCount(tail.selection.edges), live);
      pick := Into(0, inside, more);
    }
  }

  lemma {:induction false} LoopArmsEnd(arms: LoopArms, k: nat, selection: Selection, e: nat, seen: set<nat>, around: Around,
                                       n: nat, live: set<nat>)
    returns (inside: seq<Pick>, tail: TailPick)
    requires LoopArmsShaped(arms, seen, around, n) && LoopsEndInLoopArms(arms)
    requires e < |selection.edges| && k < |LoopInputs(arms)|
    ensures var out := RunLoopArms(arms, k, selection, Into(e, inside, tail), live);
            out.Fault? || out.Gone?
    decreases arms, 0, 0
  {
    if k > 0 {
      inside, tail := LoopArmsEnd(arms.others, k - 1, selection, e, seen, around, n + |arms.inputs| + BlockCount(arms.body), live);
    } else {
      EdgeEnds(selection, e, arms.inputs, live);
      inside, tail := [], AtEdge;
      var out := RunEdge(selection, e, arms.inputs, live);
      if out.Done? {
        inside, tail := BlockEnds(arms.body, Plus(seen, arms.inputs), around, n + |arms.inputs|, out.live);
      }
    }
  }

  // ---------- Some way out of a loop

  lemma {:induction false} BlockBreaks(block: Block, seen: set<nat>, around: Around, n: nat, live: set<nat>)
    returns (inside: seq<Pick>, tail: TailPick)
    requires BlockShaped(block, seen, around, n) && LoopsEndInBlock(block) && Breaks(block)
    ensures Broken(RunBlock(block, inside, tail, live))
    decreases block, 0, 0
  {
    tail := AtEdge;
    if BreaksOps(block.ops) {
      inside := OpsBreak(block.ops, seen, around, n + OwnCount(block.ops), live);
    } else {
      inside := OpsEnd(block.ops, seen, Some(around), n + OwnCount(block.ops), live);
      var out := RunOps(block.ops, inside, live);
      if out.Done? {
        tail := TailBreaks(block.tail, SeenAfter(block.ops, seen), around,
                           n + OwnCount(block.ops) + NestedCount(block.ops), out.live);
      }
    }
  }

  lemma {:induction false} OpsBreak(ops: Ops, seen: set<nat>, around: Around, n: nat, live: set<nat>) returns (picks: seq<Pick>)
    requires OpsShaped(ops, seen, Some(around), n) && LoopsEnd(ops) && BreaksOps(ops)
    ensures Broken(RunOps(ops, picks, live))
    decreases ops, 0, 0
  {
    var op := ops.head;
    if BreaksOp(op) {
      var e, inside, tail := ArmsBreak(op.arms, 0, op.selection, op.entering, op.outputs, seen, around,
                                       n + EdgesCount(op.selection.edges), live);
      picks := [Through(e, inside, tail)];
    } else {
      var pick := OpEnds(op, seen, Some(around), n, live);
      var out := RunOp(op, pick, live);
      picks := [pick];
      if out.Done? {
        var more := OpsBreak(ops.tail, Plus(seen, Made(op)), around, n + NestedIn(op), out.live);
        picks := [pick] + more;
        assert picks[1..] == more;
      }
    }
  }

  predicate BreaksHere(arms: Arms)
    requires !arms.NoArms?
  {
    if arms.Yielding? then BreaksOps(arms.ops) else Breaks(arms.body)
  }

  lemma {:induction false} ArmBreaks(arms: Arms, e: nat, entering: seq<nat>, outputs: seq<nat>, seen: set<nat>,
                                     around: Around, first: nat, n: nat, live: set<nat>)
    returns (inside: seq<Pick>, tail: TailPick)
    requires !arms.NoArms? && ArmShaped(arms, entering, |outputs|, seen, Some(around), first, n)
    requires LoopsEndInArms(arms) && BreaksHere(arms)
    ensures Broken(RunArm(arms, Through(e, inside, tail), outputs, live))
    decreases arms, 0, 0
  {
    tail := AtEdge;
    if arms.Yielding? {
      inside := OpsBreak(arms.ops, seen, around, n + OwnCount(arms.ops), live);
    } else {
      inside, tail := BlockBreaks(arms.body, seen, around, n, live);
    }
  }

  /** Some arm of those from `offset` on, entered by some edge. */
  lemma {:induction false} ArmsBreak(arms: Arms, offset: nat, selection: Selection, entering: seq<nat>, outputs: seq<nat>,
                                     seen: set<nat>, around: Around, n: nat, live: set<nat>)
    returns (e: nat, inside: seq<Pick>, tail: TailPick)
    requires ArmsShaped(arms, entering, |outputs|, seen, Some(around), n) && LoopsEndInArms(arms) && BreaksArms(arms)
    requires forall j :: offset <= j < offset + |Inputs(arms)| ==> j in Targets(selection)
    ensures e < |selection.edges| && offset <= selection.edges[e].arm
    ensures Broken(RunArms(arms, selection.edges[e].arm - offset, selection, Through(e, inside, tail), outputs, live))
    decreases arms, 1, 0
  {
    if BreaksHere(arms) {
      assert offset in Targets(selection);
      e :| e < |selection.edges| && selection.edges[e].arm == offset;
      EdgeEnds(selection, e, arms.inputs, live);
      inside, tail := [], AtEdge;
      var out := RunEdge(selection, e, arms.inputs, live);
      if out.Done? {
        inside, tail := ArmBreaks(arms, e, entering, outputs, Plus(seen, arms.inputs), around, n, n + |arms.inputs|, out.live);
      }
    } else {
      e, inside, tail := ArmsBreak(arms.others, offset + 1, selection, entering, outputs, seen, around, n + ArmCount(arms), live);
    }
  }

  lemma {:induction false} TailBreaks(tail: Tail, seen: set<nat>, around: Around, n: nat, live: set<nat>) returns (pick: TailPick)
    requires TailShaped(tail, seen, around, n) && LoopsEndInTail(tail) && BreaksTail(tail)
    ensures Broken(RunTail(tail, pick, live))
    decreases tail, 0, 0
  {
    pick := AtEdge;
    if tail.Match? {
      var e, inside, more := LoopArmsBreak(tail.arms, 0, tail.selection, seen, around,
                                           n + EdgesCount(tail.selection.edges), live);
      pick := Into(e, inside, more);
    }
  }

  lemma {:induction false} LoopArmsBreak(arms: LoopArms, offset: nat, selection: Selection, seen: set<nat>, around: Around,
                                         n: nat, live: set<nat>)
    returns (e: nat, inside: seq<Pick>, tail: TailPick)
    requires LoopArmsShaped(arms, seen, around, n) && LoopsEndInLoopArms(arms) && BreaksLoopArms(arms)
    requires forall j :: offset <= j < offset + |LoopInputs(arms)| ==> j in Targets(selection)
    ensures e < |selection.edges| && offset <= selection.edges[e].arm
    ensures Broken(RunLoopArms(arms, selection.edges[e].arm - offset, selection, Into(e, inside, tail), live))
    decreases arms, 0, 0
  {
    if Breaks(arms.body) {
      assert offset in Targets(selection);
      e :| e < |selection.edges| && selection.edges[e].arm == offset;
      EdgeEnds(selection, e, arms.inputs, live);
      inside, tail := [], AtEdge;
      var out := RunEdge(selection, e, arms.inputs, live);
      if out.Done? {
        inside, tail := BlockBreaks(arms.body, Plus(seen, arms.inputs), around, n + |arms.inputs|, out.live);
      }
    } else {
      e, inside, tail := LoopArmsBreak(arms.others, offset + 1, selection, seen, around,
                                       n + |arms.inputs| + BlockCount(arms.body), live);
    }
  }
}
