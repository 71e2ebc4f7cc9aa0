/** What the ownership verifier asks of the code alone, whatever is live when it runs: owners are
    numbered in the order of the two passes, code names only owners that it can see, selections
    reach their arms, and transfers match what they go to. No state and no execution occurs here. */
module OwnershipShape {
  import opened Options
  import opened OwnershipVerifier

  // ---------- One operation in its own block

  function Listed(source: Option<nat>): seq<nat> {
    if source.Some? then [source.value] else []
  }

  /** The owners that an operation makes in its own block. */
  function Made(op: Op): seq<nat> {
    match op
    case Define(_, _, result) => Listed(result)
    case Acquire(_, owner) => [owner]
    case Drop(_) => []
    case Join(_, _, outputs, _) => outputs
    case Loop(_, _, outputs, _) => outputs
  }

  /** Those it discharges there. */
  function Spent(op: Op): seq<nat> {
    match op
    case Define(_, consumed, _) => consumed
    case Acquire(_, _) => []
    case Drop(owner) => [owner]
    case Join(_, entering, _, _) => entering
    case Loop(acquisitions, headers, _, _) => Initials(acquisitions, headers, true)
  }

  predicate Spends(ops: Ops, o: nat) {
    ops.Cons? && (o in Spent(ops.head) || Spends(ops.tail, o))
  }

  /** Those it only looks at. */
  function Looked(op: Op): seq<nat> {
    match op
    case Define(borrowed, _, _) => borrowed
    case Acquire(source, _) => Listed(source)
    case Join(selection, _, _, _) => Listed(selection.scrutinee)
    case _ => []
  }

  predicate Visible(seen: set<nat>, os: seq<nat>) { forall i :: 0 <= i < |os| ==> os[i] in seen }

  predicate From(first: nat, os: seq<nat>) { forall i :: 0 <= i < |os| ==> first <= os[i] }

  predicate Distinct(os: seq<nat>) { forall i, j :: 0 <= i < j < |os| ==> os[i] != os[j] }

  predicate Consecutive(os: seq<nat>, n: nat) { forall i :: 0 <= i < |os| ==> os[i] == n + i }

  function Plus(seen: set<nat>, os: seq<nat>): set<nat> { seen + set i | 0 <= i < |os| :: os[i] }

  function SeenAfter(ops: Ops, seen: set<nat>): set<nat> {
    if ops.Nil? then seen else SeenAfter(ops.tail, Plus(seen, Made(ops.head)))
  }

  function HeaderInitials(headers: seq<Header>): seq<nat> {
    seq(|headers|, i requires 0 <= i < |headers| => headers[i].initial)
  }

  /** Every header's initial either was acquired for the loop or is taken over, and none is lost. */
  lemma {:induction false} InitialsSplit(acquisitions: seq<Acquisition>, headers: seq<Header>)
    ensures multiset(Initials(acquisitions, headers, true)) + multiset(Initials(acquisitions, headers, false))
         == multiset(HeaderInitials(headers))
  {
    if headers != [] {
      InitialsSplit(acquisitions, headers[1..]);
      assert HeaderInitials(headers) == [headers[0].initial] + HeaderInitials(headers[1..]);
    }
  }

  lemma {:induction false} InitialTaken(acquisitions: seq<Acquisition>, headers: seq<Header>, taken: bool, o: nat)
    requires o in Initials(acquisitions, headers, taken)
    ensures taken <==> forall i :: 0 <= i < |acquisitions| ==> acquisitions[i].owner != o
  {
    if o in Initials(acquisitions, headers[1..], taken) {
      InitialTaken(acquisitions, headers[1..], taken, o);
    }
  }

  // ---------- Numbers

  /** A block's own owners are numbered in the order they are made, from n on. */
  predicate InOrder(ops: Ops, n: nat) {
    ops.Cons? ==> Consecutive(Made(ops.head), n) && InOrder(ops.tail, n + |Made(ops.head)|)
  }

  function OwnCount(ops: Ops): nat {
    if ops.Nil? then 0 else |Made(ops.head)| + OwnCount(ops.tail)
  }

  /** How many owners the arms and bodies nested in a block have; they are numbered after its own. */
  function NestedCount(ops: Ops): nat
    decreases ops, 0
  {
    if ops.Nil? then 0 else NestedIn(ops.head) + NestedCount(ops.tail)
  }

  function NestedIn(op: Op): nat
    decreases op, 0
  {
    match op
    case Join(selection, _, _, arms) => EdgesCount(selection.edges) + ArmsCount(arms)
    case Loop(acquisitions, headers, _, body) => |acquisitions| + |headers| + BlockCount(body)
    case _ => 0
  }

  function LocalsCount(steps: seq<Local>): nat {
    if steps == [] then 0 else |Made(AsOp(steps[0]))| + LocalsCount(steps[1..])
  }

  function EdgesCount(edges: seq<Edge>): nat {
    if edges == [] then 0 else LocalsCount(edges[0].steps) + EdgesCount(edges[1..])
  }

  function ArmsCount(arms: Arms): nat
    decreases arms, 1
  {
    if arms.NoArms? then 0 else ArmCount(arms) + ArmsCount(arms.others)
  }

  /** The first of these arms. */
  function ArmCount(arms: Arms): nat
    requires !arms.NoArms?
    decreases arms, 0
  {
    |arms.inputs| + if arms.Yielding? then OwnCount(arms.ops) + NestedCount(arms.ops) else BlockCount(arms.body)
  }

  function BlockCount(block: Block): nat
    decreases block, 0
  {
    OwnCount(block.ops) + NestedCount(block.ops) + TailCount(block.tail)
  }

  function TailCount(tail: Tail): nat
    decreases tail, 0
  {
    match tail
    case LoopEdge(_, _) => 0
    case Match(selection, arms) => EdgesCount(selection.edges) + LoopArmsCount(arms)
  }

  function LoopArmsCount(arms: LoopArms): nat
    decreases arms, 0
  {
    match arms
    case NoLoopArms => 0
    case LoopArm(inputs, body, others) => |inputs| + BlockCount(body) + LoopArmsCount(others)
  }

  // ---------- Shape

  /** The nearest loop around some code: its first owner, and how many values its edges carry. */
  datatype Around = Around(floor: nat, headers: nat, outputs: nat)

  /** A selection edge makes owners from n on, and discharges only those. */
  ghost predicate LocalsShaped(steps: seq<Local>, seen: set<nat>, first: nat, n: nat)
    decreases |steps|
  {
    steps != [] ==>
      var op := AsOp(steps[0]);
      && Visible(seen, Looked(op)) && Visible(seen, Spent(op)) && From(first, Spent(op))
      && Consecutive(Made(op), n)
      && LocalsShaped(steps[1..], Plus(seen, Made(op)), first, n + |Made(op)|)
  }

  function LocalsSeen(steps: seq<Local>, seen: set<nat>): set<nat>
    decreases |steps|
  {
    if steps == [] then seen else LocalsSeen(steps[1..], Plus(seen, Made(AsOp(steps[0]))))
  }

  ghost predicate EdgeShaped(edge: Edge, inputs: nat, seen: set<nat>, n: nat) {
    && LocalsShaped(edge.steps, seen, n, n)
    && |edge.transfers| == inputs && From(n, edge.transfers) && Visible(LocalsSeen(edge.steps, seen), edge.transfers)
  }

  ghost predicate EdgesShaped(edges: seq<Edge>, inputs: seq<seq<nat>>, seen: set<nat>, n: nat)
    decreases |edges|
  {
    edges != [] ==>
      && edges[0].arm < |inputs| && EdgeShaped(edges[0], |inputs[edges[0].arm]|, seen, n)
      && EdgesShaped(edges[1..], inputs, seen, n + LocalsCount(edges[0].steps))
  }

  /** The arms that edges lead to. */
  function Targets(selection: Selection): set<nat> {
    set e | 0 <= e < |selection.edges| :: selection.edges[e].arm
  }

  /** Some edge is there to take, and one leads to every arm. */
  ghost predicate Reaches(selection: Selection, arms: nat) {
    selection.edges != [] && forall k :: 0 <= k < arms ==> k in Targets(selection)
  }

  predicate YieldsAt(arms: Arms, k: nat) {
    !arms.NoArms? && if k == 0 then arms.Yielding? else YieldsAt(arms.others, k - 1)
  }

  /** Something goes on behind the join. */
  ghost predicate SomeYields(arms: Arms) {
    exists k :: YieldsAt(arms, k)
  }

  ghost predicate SelectionShaped(selection: Selection, inputs: seq<seq<nat>>, seen: set<nat>, n: nat) {
    && Visible(seen, Listed(selection.scrutinee)) && Reaches(selection, |inputs|)
    && EdgesShaped(selection.edges, inputs, seen, n)
  }

  /** The operations of a block, with what is nested in them numbered from n on. */
  ghost predicate OpsShaped(ops: Ops, seen: set<nat>, around: Option<Around>, n: nat)
    decreases ops, 0
  {
    ops.Cons? ==>
      && OpShaped(ops.head, seen, around, n)
      && OpsShaped(ops.tail, Plus(seen, Made(ops.head)), around, n + NestedIn(ops.head))
  }

  ghost predicate OpShaped(op: Op, seen: set<nat>, around: Option<Around>, n: nat)
    decreases op, 0
  {
    && Visible(seen, Looked(op)) && Visible(seen, Spent(op))
    && (match op
        case Join(selection, entering, outputs, arms) =>
          && SomeYields(arms) && Distinct(entering) && SelectionShaped(selection, Inputs(arms), seen, n)
          && ArmsShaped(arms, entering, |outputs|, seen, around, n + EdgesCount(selection.edges))
        case Loop(acquisitions, headers, outputs, body) =>
          var start := n + |acquisitions|;
          && AcquisitionsShaped(acquisitions, seen, n) && Consecutive(Parameters(headers), start)
          && BlockShaped(body, Plus(seen, Parameters(headers)), Around(n, |headers|, |outputs|), start + |headers|)
        case _ => true)
  }

  ghost predicate AcquisitionsShaped(acquisitions: seq<Acquisition>, seen: set<nat>, n: nat)
    decreases |acquisitions|
  {
    acquisitions != [] ==>
      && Visible(seen, Listed(acquisitions[0].source)) && acquisitions[0].owner == n
      && AcquisitionsShaped(acquisitions[1..], seen + {n}, n + 1)
  }

  ghost predicate ArmsShaped(arms: Arms, entering: seq<nat>, outputs: nat, seen: set<nat>, around: Option<Around>, n: nat)
    decreases arms, 1
  {
    !arms.NoArms? ==>
      && Consecutive(arms.inputs, n)
      && ArmShaped(arms, entering, outputs, Plus(seen, arms.inputs), around, n, n + |arms.inputs|)
      && ArmsShaped(arms.others, entering, outputs, seen, around, n + ArmCount(arms))
  }

  /** The first of these arms, with its inputs visible. */
  ghost predicate ArmShaped(arms: Arms, entering: seq<nat>, outputs: nat, seen: set<nat>, around: Option<Around>,
                            first: nat, n: nat)
    requires !arms.NoArms?
    decreases arms, 0
  {
    if arms.Yielding? then YieldShaped(arms.ops, arms.transfers, entering, outputs, seen, around, first, n)
    else around.Some? && BlockShaped(arms.body, seen, around.value, n)
  }

  /** A yielding arm discharges exactly the entering owners of those around it, and hands out
      only owners of its own. */
  ghost predicate YieldShaped(ops: Ops, transfers: seq<nat>, entering: seq<nat>, outputs: nat, seen: set<nat>,
                              around: Option<Around>, first: nat, n: nat)
    decreases ops, 1
  {
    && InOrder(ops, n) && OpsShaped(ops, seen, around, n + OwnCount(ops))
    && (forall o: nat :: o < first ==> (Spends(ops, o) <==> o in entering))
    && |transfers| == outputs && From(first, transfers) && Visible(SeenAfter(ops, seen), transfers)
  }

  /** A block of a loop discharges no owner from before the loop. */
  ghost predicate BlockShaped(block: Block, seen: set<nat>, around: Around, n: nat)
    decreases block, 0
  {
    && InOrder(block.ops, n) && (forall o: nat :: Spends(block.ops, o) ==> around.floor <= o)
    && OpsShaped(block.ops, seen, Some(around), n + OwnCount(block.ops))
    && TailShaped(block.tail, SeenAfter(block.ops, seen), around, n + OwnCount(block.ops) + NestedCount(block.ops))
  }

  ghost predicate TailShaped(tail: Tail, seen: set<nat>, around: Around, n: nat)
    decreases tail, 0
  {
    match tail
    case LoopEdge(recur, transfers) =>
      && |transfers| == (if recur then around.headers else around.outputs)
      && From(around.floor, transfers) && Visible(seen, transfers)
    case Match(selection, arms) =>
      && SelectionShaped(selection, LoopInputs(arms), seen, n)
      && LoopArmsShaped(arms, seen, around, n + EdgesCount(selection.edges))
  }

  ghost predicate LoopArmsShaped(arms: LoopArms, seen: set<nat>, around: Around, n: nat)
    decreases arms, 0
  {
    match arms
    case NoLoopArms => true
    case LoopArm(inputs, body, others) =>
      var start := n + |inputs|;
      && Consecutive(inputs, n) && BlockShaped(body, Plus(seen, inputs), around, start)
      && LoopArmsShaped(others, seen, around, start + BlockCount(body))
  }

  ghost predicate FunctionShaped(f: Function) {
    && InOrder(f.ops, 0) && OpsShaped(f.ops, {}, None, OwnCount(f.ops))
    && Visible(SeenAfter(f.ops, {}), Listed(f.returned))
  }

  // ---------- Loops that can end

  /** Some edge in this code leaves the loop around it. */
  predicate BreaksOps(ops: Ops)
    decreases ops, 0
  {
    ops.Cons? && (BreaksOp(ops.head) || BreaksOps(ops.tail))
  }

  predicate BreaksOp(op: Op)
    decreases op, 0
  {
    op.Join? && BreaksArms(op.arms)
  }

  predicate BreaksArms(arms: Arms)
    decreases arms, 0
  {
    match arms
    case NoArms => false
    case Yielding(_, ops, _, others) => BreaksOps(ops) || BreaksArms(others)
    case Leaving(_, body, others) => Breaks(body) || BreaksArms(others)
  }

  predicate Breaks(block: Block)
    decreases block, 0
  {
    BreaksOps(block.ops) || BreaksTail(block.tail)
  }

  predicate BreaksTail(tail: Tail)
    decreases tail, 0
  {
    match tail
    case LoopEdge(recur, _) => !recur
    case Match(_, arms) => BreaksLoopArms(arms)
  }

  predicate BreaksLoopArms(arms: LoopArms)
    decreases arms, 0
  {
    arms.LoopArm? && (Breaks(arms.body) || BreaksLoopArms(arms.others))
  }

  /** Every loop in this code has an edge that leaves it. */
  predicate LoopsEnd(ops: Ops)
    decreases ops, 0
  {
    ops.Cons? ==> LoopsEndIn(ops.head) && LoopsEnd(ops.tail)
  }

  predicate LoopsEndIn(op: Op)
    decreases op, 0
  {
    match op
    case Join(_, _, _, arms) => LoopsEndInArms(arms)
    case Loop(_, _, _, body) => Breaks(body) && LoopsEndInBlock(body)
    case _ => true
  }

  predicate LoopsEndInArms(arms: Arms)
    decreases arms, 0
  {
    match arms
    case NoArms => true
    case Yielding(_, ops, _, others) => LoopsEnd(ops) && LoopsEndInArms(others)
    case Leaving(_, body, others) => LoopsEndInBlock(body) && LoopsEndInArms(others)
  }

  predicate LoopsEndInBlock(block: Block)
    decreases block, 0
  {
    LoopsEnd(block.ops) && LoopsEndInTail(block.tail)
  }

  predicate LoopsEndInTail(tail: Tail)
    decreases tail, 0
  {
    tail.Match? ==> LoopsEndInLoopArms(tail.arms)
  }

  predicate LoopsEndInLoopArms(arms: LoopArms)
    decreases arms, 0
  {
    arms.LoopArm? ==> LoopsEndInBlock(arms.body) && LoopsEndInLoopArms(arms.others)
  }
}
