/** benchmarks/python/channel_pipeline.py: the same pipeline over blocking queues, shut down
    by one sentinel per worker instead of by sealing. `put` blocks while the queue is full
    and `get` while it is empty, so an action is a `put` or `get` that does not block. */
module SentinelPipeline {
  import opened Pipeline
  import HeavyWork

  datatype Token = Item(id: nat) | Sentinel

  /** `sent` counts the tokens the producer has put, `joined` the threads main has joined. */
  datatype Process = Process(
    sent: nat, workers: seq<Worker>, input: seq<Token>, output: seq<Job>,
    received: seq<Job>, checksum: nat, joined: nat)

  datatype Move = Put | Get(w: nat) | Deliver(w: nat) | Collect | Join

  function Tokens(c: Config): nat { c.items + c.workers }

  /** The `j`-th token the producer puts. */
  function TokenAt(c: Config, j: nat): Token {
    if j < c.items then Item(j) else Sentinel
  }

  function Start(c: Config): Process {
    Process(0, seq(c.workers, _ => Receiving(Ready)), [], [], [], 0, 0)
  }

  predicate Allowed(c: Config, p: Process, m: Move) {
    match m
    case Put => p.sent < Tokens(c) && |p.input| < c.Capacity()
    case Get(w) => w < |p.workers| && p.workers[w].Receiving? && p.input != []
    case Deliver(w) => w < |p.workers| && p.workers[w].Delivering? && |p.output| < c.Capacity()
    case Collect => |p.received| < c.items && p.output != []
    case Join =>
      && |p.received| >= c.items
      && p.joined <= c.workers
      && (if p.joined == 0 then p.sent == Tokens(c)
          else p.joined <= |p.workers| && p.workers[p.joined - 1].WorkerDone?)
  }

  function Perform(c: Config, p: Process, m: Move): Process
    requires Allowed(c, p, m)
  {
    match m
    case Put => p.(sent := p.sent + 1, input := p.input + [TokenAt(c, p.sent)])
    case Get(w) =>
      var next := match p.input[0]
                  case Sentinel => WorkerDone
                  case Item(id) => Delivering(Job(id, HeavyWork.Work(id, c.rounds)), Ready);
      p.(input := p.input[1..], workers := p.workers[w := next])
    case Deliver(w) =>
      p.(output := p.output + [p.workers[w].job], workers := p.workers[w := Receiving(Ready)])
    case Collect =>
      p.(output := p.output[1..], received := p.received + [p.output[0]],
         checksum := p.checksum + p.output[0].value)
    case Join => p.(joined := p.joined + 1)
  }

  ghost predicate IsExecution(c: Config, ps: seq<Process>, moves: seq<Move>) {
    && |ps| == |moves| + 1
    && ps[0] == Start(c)
    && forall i :: 0 <= i < |moves| ==> Allowed(c, ps[i], moves[i]) && ps[i + 1] == Perform(c, ps[i], moves[i])
  }

  // ---------- The invariant

  /** Tokens taken from the input queue so far. */
  function Taken(p: Process): int { p.sent - |p.input| }

  function Exited(w: Worker): nat { if w.WorkerDone? then 1 else 0 }

  function Whereabouts(c: Config, p: Process, x: nat): nat {
    (if Taken(p) <= x < c.items then 1 else 0)
    + Total(Holds(x), p.workers) + Copies(Origins(p.output), x) + Copies(Origins(p.received), x)
  }

  ghost predicate Shape(c: Config, p: Process) {
    && |p.workers| == c.workers
    && 0 <= Taken(p) && p.sent <= Tokens(c)
    && |p.input| <= c.Capacity() && |p.output| <= c.Capacity()
    && |p.received| <= c.items
    && (p.joined > 0 ==> |p.received| == c.items && p.sent == Tokens(c))
    && p.joined <= c.workers + 1
    && (forall i :: 0 <= i < p.joined - 1 ==> p.workers[i].WorkerDone?)
    // the queue holds consecutive tokens, so every sentinel follows every item
    && (forall i :: 0 <= i < |p.input| ==> p.input[i] == TokenAt(c, Taken(p) + i))
    // each exited worker took one sentinel, after the last item
    && Total(Exited, p.workers) == (if Taken(p) > c.items then Taken(p) - c.items else 0)
  }

  /** The items taken are in hand, in the output queue or received. */
  ghost predicate Accounted(c: Config, p: Process) {
    && (forall x: nat :: Whereabouts(c, p, x) == if x < c.items then 1 else 0)
    && (if Taken(p) < c.items then Taken(p) else c.items)
         == Total(Busy, p.workers) + |p.output| + |p.received|
  }

  ghost predicate Correct(c: Config, p: Process) {
    && (forall i :: 0 <= i < |p.workers| && p.workers[i].Delivering? ==> Genuine(c, p.workers[i].job))
    && (forall i :: 0 <= i < |p.output| ==> Genuine(c, p.output[i]))
    && (forall i :: 0 <= i < |p.received| ==> Genuine(c, p.received[i]))
    && p.checksum == ValueSum(p.received)
  }

  ghost predicate Sound(c: Config, p: Process) {
    Accounted(c, p) && Correct(c, p)
  }

  lemma StartIsSound(c: Config)
    ensures Shape(c, Start(c)) && Sound(c, Start(c))
  {
    var ws := Start(c).workers;
    TotalZero(Exited, ws);
    TotalZero(Busy, ws);
    forall x: nat
      ensures Whereabouts(c, Start(c), x) == if x < c.items then 1 else 0
    {
      TotalZero(Holds(x), ws);
    }
  }

  lemma GetKeepsShape(c: Config, p: Process, w: nat)
    requires Shape(c, p) && Allowed(c, p, Get(w))
    ensures Shape(c, Perform(c, p, Get(w)))
  {
    assert p.input[0] == TokenAt(c, Taken(p));
    TotalUpdate(Exited, p.workers, w, Perform(c, p, Get(w)).workers[w]);
  }

  lemma MoveKeepsShape(c: Config, p: Process, m: Move)
    requires Shape(c, p) && Allowed(c, p, m)
    ensures Shape(c, Perform(c, p, m))
  {
    match m
    case Put =>
    case Get(w) => GetKeepsShape(c, p, w);
    case Deliver(w) => TotalUpdate(Exited, p.workers, w, Receiving(Ready));
    case Collect =>
    case Join =>
  }

  lemma MoveKeepsWhereabouts(c: Config, p: Process, m: Move, x: nat)
    requires Shape(c, p) && Allowed(c, p, m)
    ensures Whereabouts(c, Perform(c, p, m), x) == Whereabouts(c, p, x)
  {
    match m
    case Put =>
    case Get(w) =>
      TotalUpdate(Holds(x), p.workers, w, Perform(c, p, m).workers[w]);
    case Deliver(w) =>
      TotalUpdate(Holds(x), p.workers, w, Receiving(Ready));
      OriginsAppend(p.output, p.workers[w].job, x);
    case Collect =>
      OriginsHead(p.output, x);
      OriginsAppend(p.received, p.output[0], x);
    case Join =>
  }

  lemma MoveKeepsAccounted(c: Config, p: Process, m: Move)
    requires Shape(c, p) && Accounted(c, p) && Allowed(c, p, m)
    ensures Accounted(c, Perform(c, p, m))
  {
    var q := Perform(c, p, m);
    forall x: nat
      ensures Whereabouts(c, q, x) == if x < c.items then 1 else 0
    {
      MoveKeepsWhereabouts(c, p, m, x);
    }
    if m.Get? || m.Deliver? {
      TotalUpdate(Busy, p.workers, m.w, q.workers[m.w]);
    }
  }

  lemma MoveKeepsCorrect(c: Config, p: Process, m: Move)
    requires Correct(c, p) && Allowed(c, p, m)
    ensures Correct(c, Perform(c, p, m))
  {
    var q := Perform(c, p, m);
    if m.Collect? {
      assert q.received[..|p.received|] == p.received;
    }
  }

  // ---------- Results

  /** The work done so far. Each move adds exactly one. */
  function Done(p: Process): int {
    p.sent + Taken(p) + |p.output| + 2 * |p.received| + p.joined
  }

  function TotalWork(c: Config): nat {
    2 * Tokens(c) + 2 * c.items + c.workers + 1
  }

  ghost predicate Good(c: Config, p: Process, done: nat) {
    Shape(c, p) && Sound(c, p) && Done(p) == done
  }

  lemma MoveKeepsGood(c: Config, p: Process, m: Move, done: nat)
    requires c.Valid() && Good(c, p, done) && Allowed(c, p, m)
    ensures Good(c, Perform(c, p, m), done + 1)
  {
    MoveKeepsShape(c, p, m);
    MoveKeepsAccounted(c, p, m);
    MoveKeepsCorrect(c, p, m);
  }

  /** Every process of every execution is good, after as many moves as work is done. */
  lemma {:induction false} ExecutionsStayGood(c: Config, ps: seq<Process>, moves: seq<Move>, n: nat)
    requires c.Valid() && IsExecution(c, ps, moves) && n < |ps|
    ensures Good(c, ps[n], n)
  {
    if n == 0 {
      StartIsSound(c);
    } else {
      ExecutionsStayGood(c, ps, moves, n - 1);
      MoveKeepsGood(c, ps[n - 1], moves[n - 1], n - 1);
    }
  }

  ghost predicate Live(c: Config, p: Process) {
    exists m: Move :: Allowed(c, p, m)
  }

  lemma {:induction false} EveryoneExited(ws: seq<Worker>)
    requires Total(Exited, ws) == |ws|
    ensures forall i :: 0 <= i < |ws| ==> ws[i].WorkerDone?
  {
    if ws != [] {
      TotalAtMost(Exited, ws[1..]);
      EveryoneExited(ws[1..]);
    }
  }

  lemma {:induction false} ExitedCount(ws: seq<Worker>)
    requires forall i :: 0 <= i < |ws| ==> ws[i].WorkerDone?
    ensures Total(Exited, ws) == |ws|
  {
    if ws != [] {
      ExitedCount(ws[1..]);
    }
  }

  /** Until main has joined every thread, some thread can move. */
  lemma NeverBlocked(c: Config, p: Process)
    requires c.Valid() && Shape(c, p) && Sound(c, p) && p.joined <= c.workers
    ensures Live(c, p)
  {
    if p.output != [] {
      assert Allowed(c, p, Collect);
    } else if w :| 0 <= w < |p.workers| && p.workers[w].Delivering? {
      assert Allowed(c, p, Deliver(w));
    } else if p.input == [] && p.sent < Tokens(c) {
      assert Allowed(c, p, Put);
    } else if w :| 0 <= w < |p.workers| && p.workers[w].Receiving? && p.input != [] {
      assert Allowed(c, p, Get(w));
    } else {
      if p.input != [] {
        ExitedCount(p.workers);
      }
      assert Taken(p) == Tokens(c);
      EveryoneExited(p.workers);
      TotalZero(Busy, p.workers);
      assert Allowed(c, p, Join);
    }
  }

  /** Sentinel shutdown computes what sealing does: every execution that cannot go on has
      taken a fixed number of moves, stopped every worker with one sentinel each, and left
      the sequential checksum. */
  lemma ExecutionsAreCorrect(c: Config, ps: seq<Process>, moves: seq<Move>)
    requires c.Valid() && IsExecution(c, ps, moves)
    ensures |moves| <= TotalWork(c)
    ensures !Live(c, ps[|moves|]) ==>
              var last := ps[|moves|];
              && |moves| == TotalWork(c)
              && last.joined == c.workers + 1
              && Taken(last) == Tokens(c)
              && (forall i :: 0 <= i < |last.workers| ==> last.workers[i].WorkerDone?)
              && |last.received| == c.items
              && last.checksum == HeavyWork.SequentialSum(c.items, c.rounds)
  {
    ExecutionsStayGood(c, ps, moves, |moves|);
    var last := ps[|moves|];
    if !Live(c, last) {
      if last.joined <= c.workers {
        NeverBlocked(c, last);
        assert false;
      }
      ExitedCount(last.workers);
      ChecksumIsSum(c, last);
    }
  }

  lemma ChecksumIsSum(c: Config, p: Process)
    requires Shape(c, p) && Sound(c, p) && |p.received| == c.items
    ensures p.checksum == HeavyWork.SequentialSum(c.items, c.rounds)
  {
    assert p.output == [] && Total(Busy, p.workers) == 0 && Taken(p) >= c.items;
    forall x: nat
      ensures Copies(Origins(p.received), x) == if x < c.items then 1 else 0
    {
      assert Whereabouts(c, p, x) == if x < c.items then 1 else 0;
      NobodyHolds(p.workers, x);
      assert Origins(p.output) == [];
    }
    EachOnceSum(c, p.received);
  }
}
