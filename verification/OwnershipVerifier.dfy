/** The ownership verifier of the compiler (blorp/src/verify/verify.brp): one pass over a function
    that tracks which owners are active, block by block, with enclosing blocks seen through flags.

    An owner is its ordinal. Of a borrowed value the model keeps the owner that its chain of
    projections ends in, if any; the checks of types, layouts and values only reject more. */
module OwnershipVerifier {
  import opened Options

  // ---------- Functions in ownership form

  datatype Ops = Nil | Cons(head: Op, tail: Ops)

  /** `Define` borrows some owners, consumes others into a call or a construction, and may create
      one. `Join` runs one of its arms; `entering` are the owners that every yielding arm
      discharges. `Loop` starts from owners it takes or acquires and runs its body until a
      `break` edge. */
  datatype Op =
    | Define(borrowed: seq<nat>, consumed: seq<nat>, result: Option<nat>)
    | Acquire(source: Option<nat>, owner: nat)
    | Drop(owner: nat)
    | Join(selection: Selection, entering: seq<nat>, outputs: seq<nat>, arms: Arms)
    | Loop(acquisitions: seq<Acquisition>, headers: seq<Header>, outputs: seq<nat>, body: Block)

  datatype Acquisition = Acquisition(source: Option<nat>, owner: nat)

  datatype Header = Header(parameter: nat, initial: nat)

  /** The decision between arms: any of its edges may be the one taken. */
  datatype Selection = Selection(scrutinee: Option<nat>, edges: seq<Edge>)

  datatype Edge = Edge(arm: nat, steps: seq<Local>, transfers: seq<nat>)

  datatype Local = Read(source: Option<nat>) | Take(source: Option<nat>, owner: nat) | Release(owner: nat)

  /** An arm ends in a yield to its join, or leaves by an edge of the nearest loop around. */
  datatype Arms =
    | NoArms
    | Yielding(inputs: seq<nat>, ops: Ops, transfers: seq<nat>, others: Arms)
    | Leaving(inputs: seq<nat>, body: Block, others: Arms)

  datatype Tail = LoopEdge(recur: bool, transfers: seq<nat>) | Match(selection: Selection, arms: LoopArms)

  datatype LoopArms = NoLoopArms | LoopArm(inputs: seq<nat>, body: Block, others: LoopArms)

  datatype Block = Block(ops: Ops, tail: Tail)

  datatype Function = Function(ops: Ops, returned: Option<nat>)

  // ---------- The verifier's state

  /** A block's consecutive owners, and whether each was active when a nested block was entered. */
  datatype Scope = Scope(first: nat, owners: seq<bool>)

  /** `discharged` flags enclosing owners that the current block or one around it discharged. */
  datatype State = State(enclosing: seq<Scope>, first: nat, owners: seq<bool>, discharged: set<nat>)

  function End(st: State): nat { st.first + |st.owners| }

  predicate InScope(s: Scope, o: nat) { s.first <= o < s.first + |s.owners| }

  function Find(scopes: seq<Scope>, o: nat): Option<bool> {
    if scopes == [] then None
    else if InScope(scopes[0], o) then Some(scopes[0].owners[o - scopes[0].first])
    else Find(scopes[1..], o)
  }

  /** `known_owner`: None where the owner is not visible. */
  function Known(st: State, o: nat): Option<bool> {
    var outer := Find(st.enclosing, o);
    if outer.Some? then (if o in st.discharged then Some(false) else outer)
    else if st.first <= o < End(st) then Some(st.owners[o - st.first])
    else None
  }

  predicate Active(st: State, o: nat) { Known(st, o) == Some(true) }

  predicate ActiveSource(st: State, source: Option<nat>) { source.Some? ==> Active(st, source.value) }

  predicate AllActive(st: State, os: seq<nat>) { forall i :: 0 <= i < |os| ==> Active(st, os[i]) }

  /** `verified_drop` and what follows it. */
  function Discharge(st: State, o: nat): (r: Option<State>)
    ensures r.Some? ==> Follows(st, r.value)
  {
    if !Active(st, o) then None
    else if Find(st.enclosing, o).Some? then Some(st.(discharged := st.discharged + {o}))
    else Some(st.(owners := st.owners[o - st.first := false]))
  }

  function DischargeAll(st: State, os: seq<nat>): (r: Option<State>)
    ensures r.Some? ==> Follows(st, r.value)
    decreases |os|
  {
    if os == [] then Some(st)
    else
      match Discharge(st, os[0])
      case None => None
      case Some(next) => DischargeAll(next, os[1..])
  }

  /** `validate_next_owner`: a new owner has the next ordinal. */
  function Introduce(st: State, o: nat): (r: Option<State>)
    ensures r.Some? ==> Follows(st, r.value)
  {
    if o == End(st) then Some(st.(owners := st.owners + [true])) else None
  }

  function IntroduceAll(st: State, os: seq<nat>): (r: Option<State>)
    ensures r.Some? ==> Follows(st, r.value)
    decreases |os|
  {
    if os == [] then Some(st)
    else
      match Introduce(st, os[0])
      case None => None
      case Some(next) => IntroduceAll(next, os[1..])
  }

  /** `consume_yield`: only an owner of this block moves, or on a loop edge one of the loop. */
  predicate Movable(st: State, o: nat, floor: Option<nat>) {
    Find(st.enclosing, o).None? || (floor.Some? && o >= floor.value)
  }

  function ConsumeAll(st: State, os: seq<nat>, floor: Option<nat>): (r: Option<State>)
    ensures r.Some? ==> Follows(st, r.value)
    decreases |os|
  {
    if os == [] then Some(st)
    else if !Movable(st, os[0], floor) then None
    else
      match Discharge(st, os[0])
      case None => None
      case Some(next) => ConsumeAll(next, os[1..], floor)
  }

  /** The same block, later: nothing was forgotten. */
  predicate Follows(st: State, later: State) {
    && later.enclosing == st.enclosing && later.first == st.first
    && |st.owners| <= |later.owners| && st.discharged <= later.discharged
  }

  function Enter(st: State, first: nat): State {
    State(Captured(st), first, [], st.discharged)
  }

  function Captured(st: State): seq<Scope> { st.enclosing + [Scope(st.first, st.owners)] }

  predicate Complete(st: State) { forall i :: 0 <= i < |st.owners| ==> !st.owners[i] }

  // ---------- The first pass: one block

  predicate Taken(acquisitions: seq<Acquisition>, o: nat) {
    forall i :: 0 <= i < |acquisitions| ==> acquisitions[i].owner != o
  }

  /** The header initials that were acquired for the loop, or those that it takes over. */
  function Initials(acquisitions: seq<Acquisition>, headers: seq<Header>, taken: bool): seq<nat> {
    if headers == [] then []
    else
      (if Taken(acquisitions, headers[0].initial) == taken then [headers[0].initial] else [])
      + Initials(acquisitions, headers[1..], taken)
  }

  function Parameters(headers: seq<Header>): seq<nat> {
    if headers == [] then [] else [headers[0].parameter] + Parameters(headers[1..])
  }

  predicate HasYield(arms: Arms) {
    !arms.NoArms? && (arms.Yielding? || HasYield(arms.others))
  }

  /** `verify_operations` for one operation; a join's arms and a loop's body come later. */
  function Step(op: Op, st: State): (r: Option<State>)
    ensures r.Some? ==> Follows(st, r.value)
  {
    match op
    case Define(borrowed, consumed, result) =>
      if !AllActive(st, borrowed) then None
      else
        (match DischargeAll(st, consumed)
         case None => None
         case Some(next) =>
           if !AllActive(next, borrowed) then None
           else if result.None? then Some(next)
           else Introduce(next, result.value))
    case Acquire(source, owner) => if ActiveSource(st, source) then Introduce(st, owner) else None
    case Drop(owner) => Discharge(st, owner)
    case Join(selection, entering, outputs, arms) =>
      if !ActiveSource(st, selection.scrutinee) || !HasYield(arms) then None
      else
        (match DischargeAll(st, entering)
         case None => None
         case Some(next) => IntroduceAll(next, outputs))
    case Loop(acquisitions, headers, outputs, _) =>
      (match DischargeAll(st, Initials(acquisitions, headers, true))
       case None => None
       case Some(pre) => IntroduceAll(pre, outputs))
  }

  function Steps(ops: Ops, st: State): (r: Option<State>)
    ensures r.Some? ==> Follows(st, r.value)
  {
    match ops
    case Nil => Some(st)
    case Cons(op, rest) =>
      (match Step(op, st)
       case None => None
       case Some(next) => Steps(rest, next))
  }

  function AsOp(step: Local): Op {
    match step
    case Read(source) => Define(if source.Some? then [source.value] else [], [], None)
    case Take(source, owner) => Acquire(source, owner)
    case Release(owner) => Drop(owner)
  }

  function LocalSteps(steps: seq<Local>, st: State): (r: Option<State>)
    ensures r.Some? ==> Follows(st, r.value)
    decreases |steps|
  {
    if steps == [] then Some(st)
    else if steps[0].Release? && steps[0].owner < st.first then None
    else
      match Step(AsOp(steps[0]), st)
      case None => None
      case Some(next) => LocalSteps(steps[1..], next)
  }

  // ---------- The second pass: arms and bodies, numbered after their block

  /** `verify_selection_edge`. */
  function VerifyEdge(edge: Edge, inputs: nat, initial: State): (r: Option<nat>)
    ensures r.Some? ==> End(initial) <= r.value
  {
    match LocalSteps(edge.steps, initial)
    case None => None
    case Some(st) =>
      if |edge.transfers| != inputs then None
      else
        match ConsumeAll(st, edge.transfers, None)
        case None => None
        case Some(done) => if Complete(done) then Some(End(done)) else None
  }

  function VerifyEdges(edges: seq<Edge>, inputs: seq<seq<nat>>, st: State, cursor: nat): (r: Option<nat>)
    ensures r.Some? ==> cursor <= r.value
    decreases |edges|
  {
    if edges == [] then Some(cursor)
    else if edges[0].arm >= |inputs| then None
    else
      match VerifyEdge(edges[0], |inputs[edges[0].arm]|, Enter(st, cursor))
      case None => None
      case Some(next) => VerifyEdges(edges[1..], inputs, st, next)
  }

  /** An edge leads to arm k. */
  predicate Enters(selection: Selection, k: nat) {
    exists e :: 0 <= e < |selection.edges| && selection.edges[e].arm == k
  }

  /** The decision ends in some edge, and every arm has one that leads to it. */
  predicate Connected(selection: Selection, arms: nat) {
    selection.edges != [] && forall k :: 0 <= k < arms ==> Enters(selection, k)
  }

  function VerifySelection(selection: Selection, inputs: seq<seq<nat>>, st: State, cursor: nat): (r: Option<nat>)
    ensures r.Some? ==> cursor <= r.value
  {
    if ActiveSource(st, selection.scrutinee) && Connected(selection, |inputs|)
    then VerifyEdges(selection.edges, inputs, st, cursor) else None
  }

  function Inputs(arms: Arms): seq<seq<nat>> {
    if arms.NoArms? then [] else [arms.inputs] + Inputs(arms.others)
  }

  function LoopInputs(arms: LoopArms): seq<seq<nat>> {
    if arms.NoLoopArms? then [] else [arms.inputs] + LoopInputs(arms.others)
  }

  /** The nearest loop around: the state before it, its first owner ordinal, and how many values
      its edges carry. */
  datatype ActiveLoop = ActiveLoop(pre: State, floor: nat, headers: nat, outputs: nat)

  /** `verify_entering_discharges`: of the owners around, the arm discharged those that enter. */
  predicate EnteringExact(entering: seq<nat>, entry: set<nat>, st: State) {
    forall o: nat :: o < st.first && Find(st.enclosing, o) == Some(true) ==>
      (o in st.discharged && o !in entry <==> o in entering)
  }

  /** `complete_loop_owners`: nothing from before the loop was discharged, everything of the loop
      was. */
  predicate LoopComplete(loop: ActiveLoop, st: State) {
    && (forall o: nat :: o < st.first && Find(Captured(loop.pre), o) == Some(true) && o !in loop.pre.discharged ==>
          o !in st.discharged)
    && (forall o: nat :: loop.floor <= o < st.first && Find(st.enclosing, o) == Some(true) ==> o in st.discharged)
    && Complete(st)
  }

  function VerifyLoopEdge(recur: bool, transfers: seq<nat>, loop: ActiveLoop, st: State): (r: bool) {
    && |transfers| == (if recur then loop.headers else loop.outputs)
    && (match ConsumeAll(st, transfers, Some(loop.floor))
        case None => false
        case Some(done) => LoopComplete(loop, done))
  }

  /** `verify_joins`: the arms and bodies of a block in the order of their numbers. */
  function VerifyNested(ops: Ops, st: State, active: Option<ActiveLoop>, cursor: nat): (r: Option<nat>)
    ensures r.Some? ==> cursor <= r.value
    decreases ops, 0
  {
    match ops
    case Nil => Some(cursor)
    case Cons(op, rest) =>
      (match Step(op, st)
       case None => None
       case Some(next) =>
         match VerifyControl(op, st, active, cursor)
         case None => None
         case Some(after) => VerifyNested(rest, next, active, after))
  }

  function VerifyControl(op: Op, st: State, active: Option<ActiveLoop>, cursor: nat): (r: Option<nat>)
    ensures r.Some? ==> cursor <= r.value
    decreases op
  {
    match op
    case Join(selection, entering, outputs, arms) =>
      (match VerifySelection(selection, Inputs(arms), st, cursor)
       case None => None
       case Some(after) => VerifyArms(arms, entering, |outputs|, st, active, after))
    case Loop(acquisitions, headers, outputs, body) =>
      (match DischargeAll(st, Initials(acquisitions, headers, true))
       case None => None
       case Some(pre) =>
         match InitializeLoop(acquisitions, headers, pre, cursor)
         case None => None
         case Some(initial) => VerifyBlock(body, ActiveLoop(pre, cursor, |headers|, |outputs|), initial))
    case _ => Some(cursor)
  }

  function AcquireAll(acquisitions: seq<Acquisition>, st: State): (r: Option<State>)
    ensures r.Some? ==> Follows(st, r.value)
    decreases |acquisitions|
  {
    if acquisitions == [] then Some(st)
    else
      match Step(Acquire(acquisitions[0].source, acquisitions[0].owner), st)
      case None => None
      case Some(next) => AcquireAll(acquisitions[1..], next)
  }

  /** `initialize_loop` before the headers take their values: acquisitions live only until then. */
  function BeforeHeaders(acquisitions: seq<Acquisition>, headers: seq<Header>, pre: State, cursor: nat): (r: Option<State>)
    ensures r.Some? ==> Follows(Enter(pre, cursor), r.value)
  {
    match AcquireAll(acquisitions, Enter(pre, cursor))
    case None => None
    case Some(acquired) => ConsumeAll(acquired, Initials(acquisitions, headers, false), None)
  }

  function InitializeLoop(acquisitions: seq<Acquisition>, headers: seq<Header>, pre: State, cursor: nat): (r: Option<State>)
    ensures r.Some? ==> Follows(Enter(pre, cursor), r.value)
  {
    match BeforeHeaders(acquisitions, headers, pre, cursor)
    case None => None
    case Some(consumed) => if Complete(consumed) then IntroduceAll(consumed, Parameters(headers)) else None
  }

  function VerifyArms(arms: Arms, entering: seq<nat>, outputs: nat, st: State, active: Option<ActiveLoop>, cursor: nat)
    : (r: Option<nat>)
    ensures r.Some? ==> cursor <= r.value
    decreases arms, 1
  {
    if arms.NoArms? then Some(cursor)
    else
      match IntroduceAll(Enter(st, cursor), arms.inputs)
      case None => None
      case Some(start) =>
        match VerifyArm(arms, entering, outputs, st, start, active)
        case None => None
        case Some(after) => VerifyArms(arms.others, entering, outputs, st, active, after)
  }

  /** The first of these arms, with its inputs introduced. */
  function VerifyArm(arms: Arms, entering: seq<nat>, outputs: nat, st: State, start: State, active: Option<ActiveLoop>)
    : (r: Option<nat>)
    requires !arms.NoArms?
    ensures r.Some? ==> End(start) <= r.value
    decreases arms, 0
  {
    if arms.Yielding? then VerifyYield(arms.ops, arms.transfers, entering, outputs, st, start, active)
    else if active.None? then None
    else VerifyBlock(arms.body, active.value, start)
  }

  function VerifyYield(ops: Ops, transfers: seq<nat>, entering: seq<nat>, outputs: nat, st: State, start: State,
                       active: Option<ActiveLoop>)
    : (r: Option<nat>)
    ensures r.Some? ==> End(start) <= r.value
    decreases ops, 1
  {
    match Steps(ops, start)
    case None => None
    case Some(end) =>
      match ConsumeAll(end, transfers, None)
      case None => None
      case Some(done) =>
        if |transfers| == outputs && Complete(done) && EnteringExact(entering, st.discharged, end)
        then VerifyNested(ops, start, active, End(end)) else None
  }

  /** `verify_loop_block`. */
  function VerifyBlock(block: Block, loop: ActiveLoop, initial: State): (r: Option<nat>)
    ensures r.Some? ==> End(initial) <= r.value
    decreases block, 0
  {
    match Steps(block.ops, initial)
    case None => None
    case Some(end) =>
      match VerifyNested(block.ops, initial, Some(loop), End(end))
      case None => None
      case Some(cursor) => VerifyTail(block.tail, loop, end, cursor)
  }

  function VerifyTail(tail: Tail, loop: ActiveLoop, end: State, cursor: nat): (r: Option<nat>)
    ensures r.Some? ==> cursor <= r.value
    decreases tail
  {
    match tail
    case LoopEdge(recur, transfers) => if VerifyLoopEdge(recur, transfers, loop, end) then Some(cursor) else None
    case Match(selection, arms) =>
      (match VerifySelection(selection, LoopInputs(arms), end, cursor)
       case None => None
       case Some(after) => VerifyLoopArms(arms, loop, end, after))
  }

  function VerifyLoopArms(arms: LoopArms, loop: ActiveLoop, st: State, cursor: nat): (r: Option<nat>)
    ensures r.Some? ==> cursor <= r.value
    decreases arms
  {
    match arms
    case NoLoopArms => Some(cursor)
    case LoopArm(inputs, body, others) =>
      (match IntroduceAll(Enter(st, cursor), inputs)
       case None => None
       case Some(start) =>
         match VerifyBlock(body, loop, start)
         case None => None
         case Some(after) => VerifyLoopArms(others, loop, st, after))
  }

  const START := State([], 0, [], {})

  /** `verify_function` and `verify_return`: everything but the returned owner is discharged. */
  predicate VerifyFunction(f: Function) {
    match Steps(f.ops, START)
    case None => false
    case Some(end) =>
      && (f.returned.Some? ==> Active(end, f.returned.value))
      && (forall o: nat :: o < End(end) && Active(end, o) ==> f.returned == Some(o))
      && VerifyNested(f.ops, START, None, End(end)).Some?
  }
}
