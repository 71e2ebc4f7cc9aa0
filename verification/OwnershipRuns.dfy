/** Executions of functions in ownership form: which owners are live, and when that goes wrong. */
module OwnershipRuns {
  import opened Options
  import opened OwnershipVerifier

  /** The choices of one execution of a list of operations, one pick for each: which edge a join
      takes, how the rounds of a loop go. */
  datatype Pick =
    | Straight
    | Through(edge: nat, inside: seq<Pick>, tail: TailPick)
    | Rounds(rounds: seq<Round>)

  datatype Round = Round(inside: seq<Pick>, tail: TailPick)

  datatype TailPick = AtEdge | Into(edge: nat, inside: seq<Pick>, tail: TailPick)

  /** `Fault`: an owner was used or discharged that is not live, or created while it is. `Gone`:
      control left by an edge of the loop around. `NoRun`: the picks do not fit the code. */
  datatype Outcome = Fault | NoRun | Done(live: set<nat>) | Gone(recur: bool, live: set<nat>)

  predicate AllLive(live: set<nat>, os: seq<nat>) { forall i :: 0 <= i < |os| ==> os[i] in live }

  predicate LiveSource(live: set<nat>, source: Option<nat>) { source.Some? ==> source.value in live }

  function Remove(live: set<nat>, os: seq<nat>): Option<set<nat>>
    decreases |os|
  {
    if os == [] then Some(live) else if os[0] !in live then None else Remove(live - {os[0]}, os[1..])
  }

  function Add(live: set<nat>, os: seq<nat>): Option<set<nat>>
    decreases |os|
  {
    if os == [] then Some(live) else if os[0] in live then None else Add(live + {os[0]}, os[1..])
  }

  function Plainly(live: Option<set<nat>>): Outcome {
    if live.None? then Fault else Done(live.value)
  }

  /** Operations without control. */
  function RunPlain(op: Op, live: set<nat>): Outcome
    requires !op.Join? && !op.Loop?
  {
    match op
    case Define(borrowed, consumed, result) =>
      if !AllLive(live, borrowed) then Fault
      else
        (match Remove(live, consumed)
         case None => Fault
         case Some(left) =>
           if !AllLive(left, borrowed) then Fault
           else Plainly(Add(left, if result.Some? then [result.value] else [])))
    case Acquire(source, owner) => if LiveSource(live, source) then Plainly(Add(live, [owner])) else Fault
    case Drop(owner) => Plainly(Remove(live, [owner]))
  }

  function RunLocals(steps: seq<Local>, live: set<nat>): Outcome
    decreases |steps|
  {
    if steps == [] then Done(live)
    else
      match RunPlain(AsOp(steps[0]), live)
      case Done(left) => RunLocals(steps[1..], left)
      case other => other
  }

  /** A selection edge moves its owners into the inputs of the arm it enters. */
  function RunEdge(selection: Selection, e: nat, inputs: seq<nat>, live: set<nat>): Outcome
    requires e < |selection.edges|
  {
    if !LiveSource(live, selection.scrutinee) then Fault
    else
      match RunLocals(selection.edges[e].steps, live)
      case Done(left) => Move(left, selection.edges[e].transfers, inputs)
      case other => other
  }

  function Move(live: set<nat>, from: seq<nat>, to: seq<nat>): Outcome {
    match Remove(live, from)
    case None => Fault
    case Some(left) => Plainly(Add(left, to))
  }

  function RunOps(ops: Ops, picks: seq<Pick>, live: set<nat>): Outcome
    decreases ops, 0
  {
    match ops
    case Nil => Done(live)
    case Cons(op, rest) =>
      if picks == [] then NoRun
      else
        match RunOp(op, picks[0], live)
        case Done(left) => RunOps(rest, picks[1..], left)
        case other => other
  }

  function RunOp(op: Op, pick: Pick, live: set<nat>): Outcome
    decreases op, 0
  {
    match op
    case Join(selection, _, outputs, arms) =>
      if !pick.Through? || pick.edge >= |selection.edges| then NoRun
      else RunArms(arms, selection.edges[pick.edge].arm, selection, pick, outputs, live)
    case Loop(acquisitions, headers, outputs, body) =>
      if !pick.Rounds? then NoRun
      else
        (match StartLoop(acquisitions, headers, live)
         case Done(left) => RunRounds(body, Parameters(headers), outputs, pick.rounds, left)
         case other => other)
    case _ => RunPlain(op, live)
  }

  /** Arm k of the arms that are left. */
  function RunArms(arms: Arms, k: nat, selection: Selection, pick: Pick, outputs: seq<nat>, live: set<nat>): Outcome
    requires pick.Through? && pick.edge < |selection.edges|
    decreases arms, 1
  {
    if arms.NoArms? then NoRun
    else if k > 0 then RunArms(arms.others, k - 1, selection, pick, outputs, live)
    else
      match RunEdge(selection, pick.edge, arms.inputs, live)
      case Done(entered) => RunArm(arms, pick, outputs, entered)
      case other => other
  }

  /** What an arm does once it has been entered. */
  function RunArm(arms: Arms, pick: Pick, outputs: seq<nat>, entered: set<nat>): Outcome
    requires !arms.NoArms? && pick.Through?
    decreases arms, 0
  {
    if arms.Yielding? then
      match RunOps(arms.ops, pick.inside, entered)
      case Done(left) => Move(left, arms.transfers, outputs)
      case other => other
    else RunBlock(arms.body, pick.inside, pick.tail, entered)
  }

  function RunAcquisitions(acquisitions: seq<Acquisition>, live: set<nat>): Outcome
    decreases |acquisitions|
  {
    if acquisitions == [] then Done(live)
    else
      match RunPlain(Acquire(acquisitions[0].source, acquisitions[0].owner), live)
      case Done(left) => RunAcquisitions(acquisitions[1..], left)
      case other => other
  }

  /** The values that the loop takes over go first, then those acquired for it. */
  function StartLoop(acquisitions: seq<Acquisition>, headers: seq<Header>, live: set<nat>): Outcome {
    match Remove(live, Initials(acquisitions, headers, true))
    case None => Fault
    case Some(left) =>
      match RunAcquisitions(acquisitions, left)
      case Done(acquired) => Move(acquired, Initials(acquisitions, headers, false), Parameters(headers))
      case other => other
  }

  function RunRounds(body: Block, parameters: seq<nat>, outputs: seq<nat>, rounds: seq<Round>, live: set<nat>): Outcome
    decreases body, 1, |rounds|
  {
    if rounds == [] then NoRun
    else
      match RunBlock(body, rounds[0].inside, rounds[0].tail, live)
      case Gone(recur, left) =>
        if !recur then (if |rounds| == 1 then Plainly(Add(left, outputs)) else NoRun)
        else
          (match Add(left, parameters)
           case None => Fault
           case Some(again) => RunRounds(body, parameters, outputs, rounds[1..], again))
      case Done(_) => Fault
      case other => other
  }

  function RunBlock(block: Block, inside: seq<Pick>, tail: TailPick, live: set<nat>): Outcome
    decreases block, 0, 0
  {
    match RunOps(block.ops, inside, live)
    case Done(left) => RunTail(block.tail, tail, left)
    case other => other
  }

  function RunTail(tail: Tail, pick: TailPick, live: set<nat>): Outcome
    decreases tail, 0
  {
    match tail
    case LoopEdge(recur, transfers) =>
      (match Remove(live, transfers)
       case None => Fault
       case Some(left) => Gone(recur, left))
    case Match(selection, arms) =>
      if !pick.Into? || pick.edge >= |selection.edges| then NoRun
      else RunLoopArms(arms, selection.edges[pick.edge].arm, selection, pick, live)
  }

  function RunLoopArms(arms: LoopArms, k: nat, selection: Selection, pick: TailPick, live: set<nat>): Outcome
    requires pick.Into? && pick.edge < |selection.edges|
    decreases arms, 0
  {
    if arms.NoLoopArms? then NoRun
    else if k > 0 then RunLoopArms(arms.others, k - 1, selection, pick, live)
    else
      match RunEdge(selection, pick.edge, arms.inputs, live)
      case Done(entered) => RunBlock(arms.body, pick.inside, pick.tail, entered)
      case other => other
  }

  /** A call of the function: what is live when it returns, after the result has moved out. */
  function RunFunction(f: Function, picks: seq<Pick>): Outcome {
    match RunOps(f.ops, picks, {})
    case Done(left) => Plainly(Remove(left, if f.returned.Some? then [f.returned.value] else []))
    case other => other
  }
}
