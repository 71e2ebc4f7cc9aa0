/** What the ownership verifier is for: in a function it accepts, every execution, through any arms
    and any number of loop rounds, discharges every obligation exactly once. */
module OwnershipSoundness {
  import opened Options
  import opened OwnershipVerifier
  import opened OwnershipRuns

  // ---------- The state says what is live

  /** Enclosing ordinals lie below the block's own, and only enclosing owners are flagged. */
  ghost predicate Sound(st: State) {
    && (forall o: nat :: Find(st.enclosing, o).Some? ==> o < st.first)
    && (forall o: nat :: o in st.discharged ==> Find(st.enclosing, o).Some?)
  }

  ghost predicate Agrees(st: State, live: set<nat>) {
    Sound(st) && forall o: nat :: o in live <==> Active(st, o)
  }

  lemma {:induction false} FindAppend(scopes: seq<Scope>, s: Scope, o: nat)
    ensures Find(scopes + [s], o) ==
              if Find(scopes, o).Some? then Find(scopes, o)
              else if InScope(s, o) then Some(s.owners[o - s.first]) else None
  {
    if scopes == [] {
      assert [s][1..] == [] && [] + [s] == [s];
    } else {
      assert (scopes + [s])[1..] == scopes[1..] + [s];
      FindAppend(scopes[1..], s, o);
    }
  }

  lemma EnterAgrees(st: State, first: nat, live: set<nat>)
    requires Agrees(st, live) && End(st) <= first
    ensures Agrees(Enter(st, first), live)
  {
    forall o: nat
      ensures Find(Captured(st), o).Some? ==> o < first
      ensures o in st.discharged ==> Find(Captured(st), o).Some?
      ensures Active(Enter(st, first), o) <==> Active(st, o)
    {
      FindAppend(st.enclosing, Scope(st.first, st.owners), o);
    }
  }

  lemma DischargeAgrees(st: State, o: nat, live: set<nat>)
    requires Agrees(st, live) && Discharge(st, o).Some?
    ensures o in live && Agrees(Discharge(st, o).value, live - {o})
  {
  }

  lemma {:induction false} DischargeAllAgrees(st: State, os: seq<nat>, live: set<nat>)
    requires Agrees(st, live) && DischargeAll(st, os).Some?
    ensures Remove(live, os).Some? && Agrees(DischargeAll(st, os).value, Remove(live, os).value)
    decreases |os|
  {
    if os != [] {
      DischargeAgrees(st, os[0], live);
      DischargeAllAgrees(Discharge(st, os[0]).value, os[1..], live - {os[0]});
    }
  }

  lemma {:induction false} ConsumeAllAgrees(st: State, os: seq<nat>, floor: Option<nat>, live: set<nat>)
    requires Agrees(st, live) && ConsumeAll(st, os, floor).Some?
    ensures Remove(live, os).Some? && Agrees(ConsumeAll(st, os, floor).value, Remove(live, os).value)
    decreases |os|
  {
    if os != [] {
      DischargeAgrees(st, os[0], live);
      ConsumeAllAgrees(Discharge(st, os[0]).value, os[1..], floor, live - {os[0]});
    }
  }

  lemma IntroduceAgrees(st: State, o: nat, live: set<nat>)
    requires Agrees(st, live) && Introduce(st, o).Some?
    ensures o !in live && Agrees(Introduce(st, o).value, live + {o})
  {
    assert !Active(st, o);
  }

  lemma {:induction false} IntroduceAllAgrees(st: State, os: seq<nat>, live: set<nat>)
    requires Agrees(st, live) && IntroduceAll(st, os).Some?
    ensures Add(live, os).Some? && Agrees(IntroduceAll(st, os).value, Add(live, os).value)
    decreases |os|
  {
    if os != [] {
      IntroduceAgrees(st, os[0], live);
      IntroduceAllAgrees(Introduce(st, os[0]).value, os[1..], live + {os[0]});
    }
  }

  lemma OneOwner(live: set<nat>, o: nat)
    ensures Add(live, [o]) == if o in live then None else Some(live + {o})
    ensures Remove(live, [o]) == if o in live then Some(live - {o}) else None
  {
    assert [o][1..] == [];
  }

  lemma PlainAgrees(op: Op, st: State, live: set<nat>)
    requires !op.Join? && !op.Loop? && Agrees(st, live) && Step(op, st).Some?
    ensures RunPlain(op, live).Done? && Agrees(Step(op, st).value, RunPlain(op, live).live)
  {
    match op
    case Define(borrowed, consumed, result) =>
      DischargeAllAgrees(st, consumed, live);
      var left := Remove(live, consumed).value;
      if result.Some? {
        IntroduceAgrees(DischargeAll(st, consumed).value, result.value, left);
        OneOwner(left, result.value);
      }
    case Acquire(source, owner) =>
      IntroduceAgrees(st, owner, live);
      OneOwner(live, owner);
    case Drop(owner) =>
      DischargeAgrees(st, owner, live);
      OneOwner(live, owner);
  }

  lemma {:induction false} LocalsAgree(steps: seq<Local>, st: State, live: set<nat>)
    requires Agrees(st, live) && LocalSteps(steps, st).Some?
    ensures RunLocals(steps, live).Done? && Agrees(LocalSteps(steps, st).value, RunLocals(steps, live).live)
    decreases |steps|
  {
    if steps != [] {
      PlainAgrees(AsOp(steps[0]), st, live);
      LocalsAgree(steps[1..], Step(AsOp(steps[0]), st).value, RunPlain(AsOp(steps[0]), live).live);
    }
  }

  lemma {:induction false} AcquisitionsAgree(acquisitions: seq<Acquisition>, st: State, live: set<nat>)
    requires Agrees(st, live) && AcquireAll(acquisitions, st).Some?
    ensures RunAcquisitions(acquisitions, live).Done?
    ensures Agrees(AcquireAll(acquisitions, st).value, RunAcquisitions(acquisitions, live).live)
    decreases |acquisitions|
  {
    if acquisitions != [] {
      var op := Acquire(acquisitions[0].source, acquisitions[0].owner);
      PlainAgrees(op, st, live);
      AcquisitionsAgree(acquisitions[1..], Step(op, st).value, RunPlain(op, live).live);
    }
  }

  // ---------- Where blocks end

  lemma {:induction false} ConsumeKeepsFlags(st: State, os: seq<nat>)
    requires ConsumeAll(st, os, None).Some?
    ensures ConsumeAll(st, os, None).value.discharged == st.discharged
    decreases |os|
  {
    if os != [] {
      ConsumeKeepsFlags(Discharge(st, os[0]).value, os[1..]);
    }
  }

  lemma {:induction false} LocalsKeepFlags(steps: seq<Local>, st: State)
    requires Sound(st) && LocalSteps(steps, st).Some?
    ensures LocalSteps(steps, st).value.discharged == st.discharged
    decreases |steps|
  {
    if steps != [] {
      var next := Step(AsOp(steps[0]), st).value;
      assert next.discharged == st.discharged;
      LocalsKeepFlags(steps[1..], next);
    }
  }

  lemma {:induction false} AcquisitionsKeepFlags(acquisitions: seq<Acquisition>, st: State)
    requires AcquireAll(acquisitions, st).Some?
    ensures AcquireAll(acquisitions, st).value.discharged == st.discharged
    decreases |acquisitions|
  {
    if acquisitions != [] {
      AcquisitionsKeepFlags(acquisitions[1..], Step(Acquire(acquisitions[0].source, acquisitions[0].owner), st).value);
    }
  }

  /** A nested block with nothing left of its own, and no flag set, has left what it found. */
  lemma NothingLeft(st: State, done: State, live: set<nat>)
    requires Sound(st) && Agrees(done, live)
    requires done.enclosing == Captured(st) && done.discharged == st.discharged && Complete(done)
    ensures Agrees(st, live)
  {
    forall o: nat
      ensures Active(done, o) <==> Active(st, o)
    {
      FindAppend(st.enclosing, Scope(st.first, st.owners), o);
    }
  }

  lemma {:induction false} DischargeAllMeans(st: State, os: seq<nat>, o: nat)
    requires Sound(st) && DischargeAll(st, os).Some?
    ensures Sound(DischargeAll(st, os).value)
    ensures Active(DischargeAll(st, os).value, o) <==> Active(st, o) && o !in os
    ensures o in os ==> Active(st, o)
    decreases |os|
  {
    if os != [] {
      var next := Discharge(st, os[0]).value;
      assert Sound(next) && (Active(next, o) <==> Active(st, o) && o != os[0]);
      DischargeAllMeans(next, os[1..], o);
    }
  }

  /** An arm that yields leaves what it found but for the owners that enter its join. */
  lemma YieldLeaves(st: State, end: State, done: State, entering: seq<nat>, live: set<nat>)
    requires Sound(st) && Agrees(done, live) && DischargeAll(st, entering).Some?
    requires done.enclosing == end.enclosing == Captured(st) && end.first == done.first && st.discharged <= end.discharged
    requires done.discharged == end.discharged && Complete(done) && EnteringExact(entering, st.discharged, end)
    ensures Agrees(DischargeAll(st, entering).value, live)
  {
    forall o: nat
      ensures Active(done, o) <==> Active(DischargeAll(st, entering).value, o)
      ensures Sound(DischargeAll(st, entering).value)
    {
      FindAppend(st.enclosing, Scope(st.first, st.owners), o);
      DischargeAllMeans(st, entering, o);
    }
    DischargeAllMeans(st, entering, 0);
  }

  /** The state is inside this loop: it sees what was before the loop, and else only owners
      numbered from the loop on. */
  ghost predicate Within(st: State, loop: ActiveLoop) {
    && Sound(loop.pre) && End(loop.pre) <= loop.floor <= st.first && loop.pre.discharged <= st.discharged
    && (forall o: nat :: Find(Captured(loop.pre), o).Some? ==> Find(st.enclosing, o) == Find(Captured(loop.pre), o))
    && (forall o: nat :: Find(st.enclosing, o).Some? && Find(Captured(loop.pre), o).None? ==> o >= loop.floor)
  }

  ghost predicate WithinAny(st: State, active: Option<ActiveLoop>) {
    active.Some? ==> Within(st, active.value)
  }

  lemma EnterWithin(st: State, first: nat, loop: ActiveLoop)
    requires Within(st, loop) && Sound(st) && End(st) <= first
    ensures Within(Enter(st, first), loop)
  {
    forall o: nat
      ensures Find(Captured(st), o) ==
                if Find(st.enclosing, o).Some? then Find(st.enclosing, o)
                else if st.first <= o < End(st) then Some(st.owners[o - st.first]) else None
    {
      FindAppend(st.enclosing, Scope(st.first, st.owners), o);
    }
  }

  lemma EnterLoop(pre: State, first: nat, headers: nat, outputs: nat)
    requires Sound(pre) && End(pre) <= first
    ensures Within(Enter(pre, first), ActiveLoop(pre, first, headers, outputs))
  {
  }

  /** A loop edge leaves exactly what was live before the loop. */
  lemma LoopEdgeLeaves(loop: ActiveLoop, st: State, live: set<nat>)
    requires Within(st, loop) && Agrees(st, live) && LoopComplete(loop, st)
    ensures Agrees(loop.pre, live)
  {
    var pre := loop.pre;
    forall o: nat
      ensures Active(st, o) <==> Active(pre, o)
    {
      FindAppend(pre.enclosing, Scope(pre.first, pre.owners), o);
    }
  }

  // ---------- Accepted functions balance

  /** The run did not fault. If it went to the end, what is live is what the verifier's state
      says; if it left by a loop edge, what was live before the loop. */
  ghost predicate Good(out: Outcome, end: State, active: Option<ActiveLoop>) {
    match out
    case Fault => false
    case NoRun => true
    case Done(live) => Agrees(end, live)
    case Gone(_, live) => active.Some? && Agrees(active.value.pre, live)
  }

  lemma {:induction false} EdgeAt(edges: seq<Edge>, inputs: seq<seq<nat>>, st: State, cursor: nat, e: nat) returns (at: nat)
    requires VerifyEdges(edges, inputs, st, cursor).Some? && e < |edges|
    ensures cursor <= at && edges[e].arm < |inputs|
    ensures VerifyEdge(edges[e], |inputs[edges[e].arm]|, Enter(st, at)).Some?
    decreases |edges|
  {
    if e == 0 {
      at := cursor;
    } else {
      var next := VerifyEdge(edges[0], |inputs[edges[0].arm]|, Enter(st, cursor)).value;
      at := EdgeAt(edges[1..], inputs, st, next, e - 1);
    }
  }

  /** An edge moves only owners it made, so behind it everything is as before. */
  lemma EdgeSound(selection: Selection, e: nat, n: nat, st: State, at: nat, live: set<nat>)
    requires Agrees(st, live) && End(st) <= at && e < |selection.edges|
    requires VerifyEdge(selection.edges[e], n, Enter(st, at)).Some?
    ensures RunLocals(selection.edges[e].steps, live).Done?
    ensures var left := RunLocals(selection.edges[e].steps, live).live;
            && Remove(left, selection.edges[e].transfers).Some?
            && Agrees(st, Remove(left, selection.edges[e].transfers).value)
  {
    var edge, initial := selection.edges[e], Enter(st, at);
    EnterAgrees(st, at, live);
    LocalsAgree(edge.steps, initial, live);
    LocalsKeepFlags(edge.steps, initial);
    var local, left := LocalSteps(edge.steps, initial).value, RunLocals(edge.steps, live).live;
    ConsumeAllAgrees(local, edge.transfers, None, left);
    ConsumeKeepsFlags(local, edge.transfers);
    NothingLeft(st, ConsumeAll(local, edge.transfers, None).value, Remove(left, edge.transfers).value);
  }

  /** So an arm starts with its inputs and what was live at the selection. */
  lemma ArmEntered(selection: Selection, e: nat, inputs: seq<nat>, st: State, at: nat, first: nat, live: set<nat>)
    requires Agrees(st, live) && End(st) <= at && End(st) <= first && e < |selection.edges|
    requires ActiveSource(st, selection.scrutinee)
    requires VerifyEdge(selection.edges[e], |inputs|, Enter(st, at)).Some? && IntroduceAll(Enter(st, first), inputs).Some?
    ensures RunEdge(selection, e, inputs, live).Done?
    ensures Agrees(IntroduceAll(Enter(st, first), inputs).value, RunEdge(selection, e, inputs, live).live)
  {
    EdgeSound(selection, e, |inputs|, st, at, live);
    var left := Remove(RunLocals(selection.edges[e].steps, live).live, selection.edges[e].transfers).value;
    EnterAgrees(st, first, left);
    IntroduceAllAgrees(Enter(st, first), inputs, left);
  }

  lemma {:induction false} OpsSound(ops: Ops, st: State, active: Option<ActiveLoop>, cursor: nat, picks: seq<Pick>,
                                    live: set<nat>)
    requires Agrees(st, live) && WithinAny(st, active) && Steps(ops, st).Some? && End(Steps(ops, st).value) <= cursor
    requires VerifyNested(ops, st, active, cursor).Some?
    ensures Good(RunOps(ops, picks, live), Steps(ops, st).value, active)
    decreases ops, 0, 0
  {
    if ops.Cons? && picks != [] {
      var next := Step(ops.head, st).value;
      OpSound(ops.head, st, active, cursor, picks[0], live);
      var out := RunOp(ops.head, picks[0], live);
      if out.Done? {
        OpsSound(ops.tail, next, active, VerifyControl(ops.head, st, active, cursor).value, picks[1..], out.live);
      }
    }
  }

  lemma {:induction false} OpSound(op: Op, st: State, active: Option<ActiveLoop>, cursor: nat, pick: Pick, live: set<nat>)
    requires Agrees(st, live) && WithinAny(st, active) && Step(op, st).Some? && End(Step(op, st).value) <= cursor
    requires VerifyControl(op, st, active, cursor).Some?
    ensures Good(RunOp(op, pick, live), Step(op, st).value, active)
    decreases op, 1, 0
  {
    match op
    case Join(selection, entering, outputs, arms) =>
      if pick.Through? && pick.edge < |selection.edges| {
        var at := EdgeAt(selection.edges, Inputs(arms), st, cursor, pick.edge);
        ArmsSound(arms, selection.edges[pick.edge].arm, selection, entering, outputs, st, active, at,
                  VerifySelection(selection, Inputs(arms), st, cursor).value, pick, live);
      }
    case Loop(acquisitions, headers, outputs, body) =>
      if pick.Rounds? {
        LoopSound(op, st, cursor, pick.rounds, live);
      }
    case _ => PlainAgrees(op, st, live);
  }

  lemma {:induction false} ArmsSound(arms: Arms, k: nat, selection: Selection, entering: seq<nat>, outputs: seq<nat>,
                                     st: State, active: Option<ActiveLoop>, at: nat, cursor: nat, pick: Pick,
                                     live: set<nat>)
    requires Agrees(st, live) && WithinAny(st, active) && ActiveSource(st, selection.scrutinee)
    requires DischargeAll(st, entering).Some? && IntroduceAll(DischargeAll(st, entering).value, outputs).Some?
    requires End(st) <= at && End(st) <= cursor && VerifyArms(arms, entering, |outputs|, st, active, cursor).Some?
    requires pick.Through? && pick.edge < |selection.edges| && k < |Inputs(arms)|
    requires VerifyEdge(selection.edges[pick.edge], |Inputs(arms)[k]|, Enter(st, at)).Some?
    ensures Good(RunArms(arms, k, selection, pick, outputs, live),
                 IntroduceAll(DischargeAll(st, entering).value, outputs).value, active)
    decreases arms, 1, 0
  {
    if k > 0 {
      var after := OthersVerified(arms, entering, |outputs|, st, active, cursor);
      ArmsSound(arms.others, k - 1, selection, entering, outputs, st, active, at, after, pick, live);
    } else {
      ArmEntered(selection, pick.edge, arms.inputs, st, at, cursor, live);
      EnterWithinAny(st, cursor, active);
      var start := IntroduceAll(Enter(st, cursor), arms.inputs).value;
      FirstArmSound(arms, entering, outputs, st, start, active, pick, RunEdge(selection, pick.edge, arms.inputs, live).live);
    }
  }

  lemma OthersVerified(arms: Arms, entering: seq<nat>, outputs: nat, st: State, active: Option<ActiveLoop>, cursor: nat)
    returns (after: nat)
    requires !arms.NoArms? && VerifyArms(arms, entering, outputs, st, active, cursor).Some?
    ensures cursor <= after && VerifyArms(arms.others, entering, outputs, st, active, after).Some?
  {
    var start := IntroduceAll(Enter(st, cursor), arms.inputs).value;
    after := VerifyArm(arms, entering, outputs, st, start, active).value;
  }

  lemma EnterWithinAny(st: State, first: nat, active: Option<ActiveLoop>)
    requires WithinAny(st, active) && Sound(st) && End(st) <= first
    ensures WithinAny(Enter(st, first), active)
  {
    if active.Some? {
      EnterWithin(st, first, active.value);
    }
  }

  lemma {:induction false} FirstArmSound(arms: Arms, entering: seq<nat>, outputs: seq<nat>, st: State, start: State,
                       active: Option<ActiveLoop>, pick: Pick, entered: set<nat>)
    requires !arms.NoArms? && pick.Through? && Sound(st) && Agrees(start, entered) && WithinAny(start, active)
    requires start.enclosing == Captured(st) && st.discharged <= start.discharged
    requires DischargeAll(st, entering).Some? && IntroduceAll(DischargeAll(st, entering).value, outputs).Some?
    requires arms.Yielding? ==> VerifyYield(arms.ops, arms.transfers, entering, |outputs|, st, start, active).Some?
    requires arms.Leaving? ==> active.Some? && VerifyBlock(arms.body, active.value, start).Some?
    ensures Good(RunArm(arms, pick, outputs, entered), IntroduceAll(DischargeAll(st, entering).value, outputs).value, active)
    decreases arms, 0, 0
  {
    if arms.Yielding? {
      YieldSound(arms.ops, arms.transfers, entering, outputs, st, start, active, pick.inside, entered);
    } else {
      BlockSound(arms.body, active.value, start, pick.inside, pick.tail, entered);
    }
  }

  lemma {:induction false} YieldSound(ops: Ops, transfers: seq<nat>, entering: seq<nat>, outputs: seq<nat>, st: State,
                                      start: State, active: Option<ActiveLoop>, picks: seq<Pick>, live: set<nat>)
    requires Agrees(start, live) && Sound(st) && WithinAny(start, active)
    requires start.enclosing == Captured(st) && st.discharged <= start.discharged
    requires DischargeAll(st, entering).Some? && IntroduceAll(DischargeAll(st, entering).value, outputs).Some?
    requires VerifyYield(ops, transfers, entering, |outputs|, st, start, active).Some?
    ensures var out := RunOps(ops, picks, live);
            Good(if out.Done? then Move(out.live, transfers, outputs) else out,
                 IntroduceAll(DischargeAll(st, entering).value, outputs).value, active)
    decreases ops, 1, 0
  {
    var end := Steps(ops, start).value;
    OpsSound(ops, start, active, End(end), picks, live);
    var out := RunOps(ops, picks, live);
    if out.Done? {
      ConsumeAllAgrees(end, transfers, None, out.live);
      ConsumeKeepsFlags(end, transfers);
      var left := Remove(out.live, transfers).value;
      YieldLeaves(st, end, ConsumeAll(end, transfers, None).value, entering, left);
      IntroduceAllAgrees(DischargeAll(st, entering).value, outputs, left);
    }
  }

  lemma LoopStarts(acquisitions: seq<Acquisition>, headers: seq<Header>, pre: State, cursor: nat, live: set<nat>)
    requires Agrees(pre, live) && End(pre) <= cursor && InitializeLoop(acquisitions, headers, pre, cursor).Some?
    ensures BeforeHeaders(acquisitions, headers, pre, cursor).Some?
    ensures var consumed := BeforeHeaders(acquisitions, headers, pre, cursor).value;
            && consumed.enclosing == Captured(pre) && consumed.discharged == pre.discharged && consumed.first == cursor
            && Complete(consumed) && RunAcquisitions(acquisitions, live).Done?
            && var held := RunAcquisitions(acquisitions, live).live;
               Remove(held, Initials(acquisitions, headers, false)).Some?
               && Agrees(consumed, Remove(held, Initials(acquisitions, headers, false)).value)
  {
    var entered, own := Enter(pre, cursor), Initials(acquisitions, headers, false);
    EnterAgrees(pre, cursor, live);
    AcquisitionsAgree(acquisitions, entered, live);
    AcquisitionsKeepFlags(acquisitions, entered);
    ConsumeAllAgrees(AcquireAll(acquisitions, entered).value, own, None, RunAcquisitions(acquisitions, live).live);
    ConsumeKeepsFlags(AcquireAll(acquisitions, entered).value, own);
  }

  /** The first round finds its headers live, beside what was live before the loop. */
  lemma LoopEntered(op: Op, st: State, cursor: nat, pre: State, live: set<nat>)
    requires op.Loop? && Agrees(st, live)
    requires DischargeAll(st, Initials(op.acquisitions, op.headers, true)) == Some(pre) && End(pre) <= cursor
    requires InitializeLoop(op.acquisitions, op.headers, pre, cursor).Some?
    ensures Sound(pre) && BeforeHeaders(op.acquisitions, op.headers, pre, cursor).Some?
    ensures var consumed := BeforeHeaders(op.acquisitions, op.headers, pre, cursor).value;
            && consumed.enclosing == Captured(pre) && consumed.discharged == pre.discharged
            && Complete(consumed) && Sound(consumed)
    ensures StartLoop(op.acquisitions, op.headers, live).Done?
    ensures Agrees(InitializeLoop(op.acquisitions, op.headers, pre, cursor).value,
                   StartLoop(op.acquisitions, op.headers, live).live)
  {
    var taken, own := Initials(op.acquisitions, op.headers, true), Initials(op.acquisitions, op.headers, false);
    DischargeAllAgrees(st, taken, live);
    var left := Remove(live, taken).value;
    LoopStarts(op.acquisitions, op.headers, pre, cursor, left);
    var entry := Remove(RunAcquisitions(op.acquisitions, left).live, own).value;
    IntroduceAllAgrees(BeforeHeaders(op.acquisitions, op.headers, pre, cursor).value, Parameters(op.headers), entry);
  }

  lemma {:induction false} LoopSound(op: Op, st: State, cursor: nat, rounds: seq<Round>, live: set<nat>)
    requires op.Loop? && Agrees(st, live) && Step(op, st).Some? && End(Step(op, st).value) <= cursor
    requires VerifyControl(op, st, None, cursor).Some?
    ensures Good(RunOp(op, Rounds(rounds), live), Step(op, st).value, None)
    decreases op, 0, 0
  {
    var pre := DischargeAll(st, Initials(op.acquisitions, op.headers, true)).value;
    LoopEntered(op, st, cursor, pre, live);
    EnterLoop(pre, cursor, |op.headers|, |op.outputs|);
    RoundsSound(op.body, ActiveLoop(pre, cursor, |op.headers|, |op.outputs|),
                BeforeHeaders(op.acquisitions, op.headers, pre, cursor).value, Parameters(op.headers), op.outputs, rounds,
                StartLoop(op.acquisitions, op.headers, live).live);
  }

  lemma {:induction false} RoundsSound(body: Block, loop: ActiveLoop, consumed: State, parameters: seq<nat>, outputs: seq<nat>,
                     rounds: seq<Round>, live: set<nat>)
    requires Within(consumed, loop) && Sound(consumed)
    requires consumed.enclosing == Captured(loop.pre) && consumed.discharged == loop.pre.discharged && Complete(consumed)
    requires IntroduceAll(consumed, parameters).Some? && Agrees(IntroduceAll(consumed, parameters).value, live)
    requires VerifyBlock(body, loop, IntroduceAll(consumed, parameters).value).Some?
    requires IntroduceAll(loop.pre, outputs).Some?
    ensures Good(RunRounds(body, parameters, outputs, rounds, live), IntroduceAll(loop.pre, outputs).value, None)
    decreases body, 1, |rounds|
  {
    if rounds != [] {
      BlockSound(body, loop, IntroduceAll(consumed, parameters).value, rounds[0].inside, rounds[0].tail, live);
      var out := RunBlock(body, rounds[0].inside, rounds[0].tail, live);
      if out.Gone? && out.recur {
        AgainAgrees(loop.pre, consumed, out.live);
        IntroduceAllAgrees(consumed, parameters, out.live);
        RoundsSound(body, loop, consumed, parameters, outputs, rounds[1..], Add(out.live, parameters).value);
      } else if out.Gone? {
        IntroduceAllAgrees(loop.pre, outputs, out.live);
      }
    }
  }

  /** At the start of another round the headers find what they found the first time. */
  lemma AgainAgrees(pre: State, consumed: State, live: set<nat>)
    requires Agrees(pre, live) && Sound(consumed)
    requires consumed.enclosing == Captured(pre) && consumed.discharged == pre.discharged && Complete(consumed)
    ensures Agrees(consumed, live)
  {
    forall o: nat
      ensures Active(consumed, o) <==> Active(pre, o)
    {
      FindAppend(pre.enclosing, Scope(pre.first, pre.owners), o);
    }
  }

  lemma {:induction false} BlockSound(block: Block, loop: ActiveLoop, initial: State, inside: seq<Pick>,
                                      tail: TailPick, live: set<nat>)
    requires Agrees(initial, live) && Within(initial, loop) && VerifyBlock(block, loop, initial).Some?
    ensures var out := RunBlock(block, inside, tail, live);
            Good(out, initial, Some(loop)) && !out.Done?
    decreases block, 0, 0
  {
    var end := Steps(block.ops, initial).value;
    OpsSound(block.ops, initial, Some(loop), End(end), inside, live);
    var out := RunOps(block.ops, inside, live);
    if out.Done? {
      TailSound(block.tail, loop, end, VerifyNested(block.ops, initial, Some(loop), End(end)).value, tail, out.live);
    }
  }

  lemma {:induction false} TailSound(tail: Tail, loop: ActiveLoop, end: State, cursor: nat, pick: TailPick, live: set<nat>)
    requires Agrees(end, live) && Within(end, loop) && End(end) <= cursor && VerifyTail(tail, loop, end, cursor).Some?
    ensures var out := RunTail(tail, pick, live);
            Good(out, end, Some(loop)) && !out.Done?
    decreases tail, 0, 0
  {
    match tail
    case LoopEdge(recur, transfers) =>
      ConsumeAllAgrees(end, transfers, Some(loop.floor), live);
      LoopEdgeLeaves(loop, ConsumeAll(end, transfers, Some(loop.floor)).value, Remove(live, transfers).value);
    case Match(selection, arms) =>
      if pick.Into? && pick.edge < |selection.edges| {
        var at := EdgeAt(selection.edges, LoopInputs(arms), end, cursor, pick.edge);
        LoopArmsSound(arms, selection.edges[pick.edge].arm, selection, loop, end, at,
                      VerifySelection(selection, LoopInputs(arms), end, cursor).value, pick, live);
      }
  }

  lemma {:induction false} LoopArmsSound(arms: LoopArms, k: nat, selection: Selection, loop: ActiveLoop, st: State,
                                         at: nat, cursor: nat, pick: TailPick, live: set<nat>)
    requires Agrees(st, live) && Within(st, loop) && ActiveSource(st, selection.scrutinee)
    requires End(st) <= at && End(st) <= cursor && VerifyLoopArms(arms, loop, st, cursor).Some?
    requires pick.Into? && pick.edge < |selection.edges| && k < |LoopInputs(arms)|
    requires VerifyEdge(selection.edges[pick.edge], |LoopInputs(arms)[k]|, Enter(st, at)).Some?
    ensures var out := RunLoopArms(arms, k, selection, pick, live);
            Good(out, st, Some(loop)) && !out.Done?
    decreases arms, 0, 0
  {
    var start := IntroduceAll(Enter(st, cursor), arms.inputs).value;
    if k > 0 {
      LoopArmsSound(arms.others, k - 1, selection, loop, st, at, VerifyBlock(arms.body, loop, start).value, pick, live);
    } else {
      ArmEntered(selection, pick.edge, arms.inputs, st, at, cursor, live);
      EnterWithin(st, cursor, loop);
      BlockSound(arms.body, loop, start, pick.inside, pick.tail, RunEdge(selection, pick.edge, arms.inputs, live).live);
    }
  }

  /** In a function that the verifier accepts, no execution uses or discharges an owner that is
      not live or creates one that is, none leaves by an edge of a loop it is not in, and when it
      returns nothing is live: every obligation was discharged exactly once on every path. */
  lemma AcceptedFunctionsBalance(f: Function, picks: seq<Pick>)
    requires VerifyFunction(f)
    ensures RunFunction(f, picks).NoRun? || RunFunction(f, picks) == Done({})
  {
    var end := Steps(f.ops, START).value;
    assert Agrees(START, {});
    OpsSound(f.ops, START, None, End(end), picks, {});
    var out := RunOps(f.ops, picks, {});
    if out.Done? {
      if f.returned.Some? {
        OneOwner(out.live, f.returned.value);
      }
      ReturnLeavesNothing(f, end, out.live);
    }
  }

  lemma ReturnLeavesNothing(f: Function, end: State, live: set<nat>)
    requires Agrees(end, live)
    requires forall o: nat :: o < End(end) && Active(end, o) ==> f.returned == Some(o)
    ensures forall o :: o in live ==> f.returned == Some(o)
  {
    forall o | o in live
      ensures f.returned == Some(o)
    {
      assert Active(end, o);
    }
  }

  /** A loop that is handed an owner, carries it and hands it out again is accepted. */
  lemma CarryingLoopAccepted(loop: Op)
    requires loop == Loop([], [Header(2, 0)], [1], Block(Nil, LoopEdge(false, [2])))
    ensures VerifyFunction(Function(Cons(Define([], [], Some(0)), Cons(loop, Nil)), Some(1)))
  {
    var made, pre, end := State([], 0, [true], {}), State([], 0, [false], {}), State([], 0, [false, true], {});
    var make := Define([], [], Some(0));
    assert [] + [true] == [true];
    assert Step(make, START) == Some(made);
    CarryingFirstPass(loop, made, pre, end);
    CarryingBodyAccepted(loop, pre);
    var rest := Cons(loop, Nil);
    assert Steps(rest, made) == Some(end);
    assert VerifyNested(rest, made, None, 2).Some?;
    assert VerifyNested(Cons(make, rest), START, None, 2).Some?;
  }

  lemma CarryingFirstPass(loop: Op, made: State, pre: State, end: State)
    requires loop == Loop([], [Header(2, 0)], [1], Block(Nil, LoopEdge(false, [2])))
    requires made == State([], 0, [true], {}) && pre == State([], 0, [false], {}) && end == State([], 0, [false, true], {})
    ensures DischargeAll(made, Initials([], loop.headers, true)) == Some(pre) && Step(loop, made) == Some(end)
  {
    CarriedHeader(loop.headers);
    assert [0][1..] == [] && [1][1..] == [];
    assert [true][0 := false] == [false] && [false] + [true] == [false, true];
    assert Discharge(made, 0) == Some(pre) && DischargeAll(made, [0]) == Some(pre);
    assert Introduce(pre, 1) == Some(end) && IntroduceAll(pre, [1]) == Some(end);
  }

  lemma CarriedHeader(headers: seq<Header>)
    requires headers == [Header(2, 0)]
    ensures Initials([], headers, true) == [0] && Initials([], headers, false) == [] && Parameters(headers) == [2]
  {
    assert headers[1..] == [];
  }

  lemma CarryingBodyAccepted(loop: Op, pre: State)
    requires loop == Loop([], [Header(2, 0)], [1], Block(Nil, LoopEdge(false, [2])))
    requires pre == State([], 0, [false], {})
    ensures InitializeLoop([], loop.headers, pre, 2).Some?
    ensures VerifyBlock(loop.body, ActiveLoop(pre, 2, 1, 1), InitializeLoop([], loop.headers, pre, 2).value).Some?
  {
    CarriedHeader(loop.headers);
    var scopes := [Scope(0, [false])];
    var inner, header, left := State(scopes, 2, [], {}), State(scopes, 2, [true], {}), State(scopes, 2, [false], {});
    assert [] + scopes == scopes && scopes[1..] == [] && [2][1..] == [];
    assert [] + [true] == [true] && [true][0 := false] == [false];
    assert Enter(pre, 2) == inner;
    assert Introduce(inner, 2) == Some(header) && IntroduceAll(inner, [2]) == Some(header);
    assert Find(scopes, 2) == None && Discharge(header, 2) == Some(left);
    assert ConsumeAll(header, [2], Some(2)) == Some(left);
    assert LoopComplete(ActiveLoop(pre, 2, 1, 1), left);
  }
}
