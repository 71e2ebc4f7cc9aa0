/** The threads of benchmarks/c/channel_pipeline.c as a state machine: one producer, any
    number of workers and the consuming main thread, over two bounded queues.

    One action is one critical section. A thread inside `queue_send` or `queue_recv` is
    `Ready` (about to take the mutex), `Waiting` (blocked on a condition variable) or `Woken`
    (signalled, about to take the mutex again and re-test). A signal wakes some waiting
    thread, and the action names which one. A waiting thread may also wake spuriously. */
module Pipeline {
  import opened BoundedQueue
  import Arithmetic
  import HeavyWork
  import opened Sequences

  datatype Config = Config(workers: nat, items: nat, rounds: nat) {
    ghost predicate Valid() { workers >= 1 }
    function Capacity(): nat { workers * 4 }
  }

  datatype Phase = Ready | Waiting | Woken

  /** A result on its way to the consumer. `origin` is the item it was computed from; it is
      history, and no step reads it. */
  datatype Job = Job(origin: nat, value: nat)

  datatype Producer = Sending(next: nat, phase: Phase) | Sealing | ProducerDone

  datatype Worker = Receiving(phase: Phase) | Delivering(job: Job, phase: Phase) | WorkerDone

  /** `Joining(0)` waits for the producer and `Joining(k)` for worker `k - 1`. */
  datatype Consumer = Collecting(phase: Phase) | Joining(next: nat) | SealingOutput | ConsumerDone

  datatype State = State(
    producer: Producer, workers: seq<Worker>, consumer: Consumer,
    input: Fifo<nat>, output: Fifo<Job>,
    received: seq<Job>, checksum: nat)

  /** The worker that a signal wakes, if any. */
  datatype Wake = NoOne | Wakes(worker: nat)

  datatype Action =
    | Produce(wake: Wake)
    | Labor(w: nat)
    | Consume(wake: Wake)
    | WakeProducer | WakeWorker(w: nat) | WakeConsumer

  predicate Spurious(a: Action) {
    a.WakeProducer? || a.WakeWorker? || a.WakeConsumer?
  }

  // ---------- Steps

  function StartSend(c: Config, i: nat): Producer {
    if i < c.items then Sending(i, Ready) else Sealing
  }

  function StartCollect(c: Config, received: nat): Consumer {
    if received < c.items then Collecting(Ready) else Joining(0)
  }

  function Init(c: Config): State {
    State(StartSend(c, 0), seq(c.workers, _ => Receiving(Ready)), StartCollect(c, 0),
          Fifo([], c.Capacity(), false), Fifo([], c.Capacity(), false), [], 0)
  }

  /** `pthread_cond_signal`: a waiting thread must be woken if there is one. */
  predicate SignalsReceiver(ws: seq<Worker>, wake: Wake) {
    match wake
    case NoOne => forall i :: 0 <= i < |ws| ==> ws[i] != Receiving(Waiting)
    case Wakes(i) => i < |ws| && ws[i] == Receiving(Waiting)
  }

  predicate SignalsSender(ws: seq<Worker>, wake: Wake) {
    match wake
    case NoOne => forall i :: 0 <= i < |ws| ==> !(ws[i].Delivering? && ws[i].phase.Waiting?)
    case Wakes(i) => i < |ws| && ws[i].Delivering? && ws[i].phase.Waiting?
  }

  function Rouse(w: Worker): Worker {
    if w.WorkerDone? then w else w.(phase := Woken)
  }

  function Signal(ws: seq<Worker>, wake: Wake): (r: seq<Worker>)
    requires wake.Wakes? ==> wake.worker < |ws|
    ensures |r| == |ws|
  {
    if wake.NoOne? then ws else ws[wake.worker := Rouse(ws[wake.worker])]
  }

  /** `pthread_cond_broadcast` to the workers waiting in `queue_recv`, or in `queue_send`. */
  function RouseReceiver(w: Worker): Worker {
    if w == Receiving(Waiting) then Receiving(Woken) else w
  }

  function RouseSender(w: Worker): Worker {
    if w.Delivering? && w.phase.Waiting? then w.(phase := Woken) else w
  }

  function BroadcastReceivers(ws: seq<Worker>): (r: seq<Worker>)
    ensures |r| == |ws|
  {
    seq(|ws|, i requires 0 <= i < |ws| => RouseReceiver(ws[i]))
  }

  function BroadcastSenders(ws: seq<Worker>): (r: seq<Worker>)
    ensures |r| == |ws|
  {
    seq(|ws|, i requires 0 <= i < |ws| => RouseSender(ws[i]))
  }

  function RouseProducer(p: Producer): Producer {
    if p.Sending? && p.phase.Waiting? then p.(phase := Woken) else p
  }

  function RouseConsumer(m: Consumer): Consumer {
    if m == Collecting(Waiting) then Collecting(Woken) else m
  }

  predicate ProduceEnabled(c: Config, s: State, wake: Wake) {
    match s.producer
    case Sending(i, phase) =>
      && !phase.Waiting?
      && (if TrySend(s.input, i).Sent? then SignalsReceiver(s.workers, wake) else wake.NoOne?)
    case Sealing => wake.NoOne?
    case ProducerDone => false
  }

  function ProduceStep(c: Config, s: State, wake: Wake): State
    requires ProduceEnabled(c, s, wake)
  {
    match s.producer
    case Sending(i, _) =>
      (match TrySend(s.input, i)
       case SendBlocks => s.(producer := Sending(i, Waiting))
       case SendRefused => s.(producer := StartSend(c, i + 1))
       case Sent(after) =>
         s.(producer := StartSend(c, i + 1), input := after, workers := Signal(s.workers, wake)))
    case Sealing =>
      s.(producer := ProducerDone, input := s.input.(sealed := true),
         workers := BroadcastReceivers(s.workers))
  }

  predicate LaborEnabled(c: Config, s: State, w: nat) {
    && w < |s.workers|
    && !s.workers[w].WorkerDone?
    && !s.workers[w].phase.Waiting?
  }

  /** A worker's receive signals `not_full` of the input queue, where only the producer
      waits; its send signals `not_empty` of the output queue, where only the consumer does.
      A refused send loses the job, as the source ignores the result of `queue_send`. */
  function LaborStep(c: Config, s: State, w: nat): State
    requires LaborEnabled(c, s, w)
  {
    match s.workers[w]
    case Receiving(_) =>
      (match TryRecv(s.input)
       case RecvBlocks => s.(workers := s.workers[w := Receiving(Waiting)])
       case RecvClosed => s.(workers := s.workers[w := WorkerDone])
       case Received(item, after) =>
         s.(workers := s.workers[w := Delivering(Job(item, HeavyWork.Work(item, c.rounds)), Ready)],
            input := after, producer := RouseProducer(s.producer)))
    case Delivering(job, _) =>
      (match TrySend(s.output, job)
       case SendBlocks => s.(workers := s.workers[w := Delivering(job, Waiting)])
       case SendRefused => s.(workers := s.workers[w := Receiving(Ready)])
       case Sent(after) =>
         s.(workers := s.workers[w := Receiving(Ready)],
            output := after, consumer := RouseConsumer(s.consumer)))
  }

  predicate ConsumeEnabled(c: Config, s: State, wake: Wake) {
    match s.consumer
    case Collecting(phase) =>
      && !phase.Waiting?
      && (if TryRecv(s.output).Received? then SignalsSender(s.workers, wake) else wake.NoOne?)
    case Joining(k) =>
      && wake.NoOne?
      && (if k == 0 then s.producer.ProducerDone?
          else k <= |s.workers| && s.workers[k - 1].WorkerDone?)
    case SealingOutput => wake.NoOne?
    case ConsumerDone => false
  }

  function ConsumeStep(c: Config, s: State, wake: Wake): State
    requires ConsumeEnabled(c, s, wake)
  {
    match s.consumer
    case Collecting(_) =>
      (match TryRecv(s.output)
       case RecvBlocks => s.(consumer := Collecting(Waiting))
       case RecvClosed => s.(consumer := StartCollect(c, |s.received|))
       case Received(job, after) =>
         s.(consumer := StartCollect(c, |s.received| + 1), output := after,
            received := s.received + [job], checksum := s.checksum + job.value,
            workers := Signal(s.workers, wake)))
    case Joining(k) => s.(consumer := if k < c.workers then Joining(k + 1) else SealingOutput)
    case SealingOutput =>
      s.(consumer := ConsumerDone, output := s.output.(sealed := true),
         workers := BroadcastSenders(s.workers))
  }

  predicate Enabled(c: Config, s: State, a: Action) {
    match a
    case Produce(wake) => ProduceEnabled(c, s, wake)
    case Labor(w) => LaborEnabled(c, s, w)
    case Consume(wake) => ConsumeEnabled(c, s, wake)
    case WakeProducer => s.producer.Sending? && s.producer.phase.Waiting?
    case WakeWorker(w) => w < |s.workers| && !s.workers[w].WorkerDone? && s.workers[w].phase.Waiting?
    case WakeConsumer => s.consumer == Collecting(Waiting)
  }

  function Step(c: Config, s: State, a: Action): State
    requires Enabled(c, s, a)
  {
    match a
    case Produce(wake) => ProduceStep(c, s, wake)
    case Labor(w) => LaborStep(c, s, w)
    case Consume(wake) => ConsumeStep(c, s, wake)
    case WakeProducer => s.(producer := RouseProducer(s.producer))
    case WakeWorker(w) => s.(workers := s.workers[w := Rouse(s.workers[w])])
    case WakeConsumer => s.(consumer := RouseConsumer(s.consumer))
  }

  /** A run is any interleaving: the states it passes and the action taken in each. */
  ghost predicate IsRun(c: Config, states: seq<State>, actions: seq<Action>) {
    && |states| == |actions| + 1
    && states[0] == Init(c)
    && forall i :: 0 <= i < |actions| ==>
         Enabled(c, states[i], actions[i]) && states[i + 1] == Step(c, states[i], actions[i])
  }

  // ---------- Totals over the workers

  function Total(f: Worker -> nat, ws: seq<Worker>): nat {
    if ws == [] then 0 else f(ws[0]) + Total(f, ws[1..])
  }

  function RecvWaiting(w: Worker): nat { if w == Receiving(Waiting) then 1 else 0 }
  function RecvWoken(w: Worker): nat { if w == Receiving(Woken) then 1 else 0 }
  function SendWaiting(w: Worker): nat { if w.Delivering? && w.phase.Waiting? then 1 else 0 }
  function SendWoken(w: Worker): nat { if w.Delivering? && w.phase.Woken? then 1 else 0 }

  lemma {:induction false} TotalUpdate(f: Worker -> nat, ws: seq<Worker>, i: nat, x: Worker)
    requires i < |ws|
    ensures Total(f, ws[i := x]) + f(ws[i]) == Total(f, ws) + f(x)
  {
    if i == 0 {
      assert ws[i := x][1..] == ws[1..];
    } else {
      assert ws[i := x][1..] == ws[1..][i - 1 := x];
      TotalUpdate(f, ws[1..], i - 1, x);
    }
  }

  lemma {:induction false} TotalAtLeast(f: Worker -> nat, ws: seq<Worker>, i: nat)
    requires i < |ws|
    ensures f(ws[i]) <= Total(f, ws)
  {
    if i > 0 {
      TotalAtLeast(f, ws[1..], i - 1);
    }
  }

  lemma {:induction false} TotalZero(f: Worker -> nat, ws: seq<Worker>)
    requires forall i :: 0 <= i < |ws| ==> f(ws[i]) == 0
    ensures Total(f, ws) == 0
  {
    if ws != [] {
      TotalZero(f, ws[1..]);
    }
  }

  lemma {:induction false} TotalSame(f: Worker -> nat, ws: seq<Worker>, vs: seq<Worker>)
    requires |ws| == |vs|
    requires forall i :: 0 <= i < |ws| ==> f(ws[i]) == f(vs[i])
    ensures Total(f, ws) == Total(f, vs)
  {
    if ws != [] {
      TotalSame(f, ws[1..], vs[1..]);
    }
  }

  lemma {:induction false} TotalAtMost(f: Worker -> nat, ws: seq<Worker>)
    requires forall i :: 0 <= i < |ws| ==> f(ws[i]) <= 1
    ensures Total(f, ws) <= |ws|
  {
    if ws != [] {
      TotalAtMost(f, ws[1..]);
    }
  }

  // ---------- The invariant

  ghost predicate Control(c: Config, s: State) {
    && |s.workers| == c.workers
    && s.input.capacity == s.output.capacity == c.Capacity()
    && |s.input.items| <= c.Capacity()
    && |s.output.items| <= c.Capacity()
    && s.input.sealed == s.producer.ProducerDone?
    && s.output.sealed == s.consumer.ConsumerDone?
    && (s.producer.Sending? ==> s.producer.next < c.items)
    && (forall i :: 0 <= i < |s.workers| && s.workers[i].WorkerDone? ==>
          s.input.sealed && s.input.items == [])
    && (s.consumer.Collecting? <==> |s.received| < c.items)
    && (s.consumer.Joining? ==>
          && s.consumer.next <= c.workers
          && (s.consumer.next > 0 ==> s.producer.ProducerDone?)
          && forall i :: 0 <= i < s.consumer.next - 1 ==> s.workers[i].WorkerDone?)
    && (s.consumer.SealingOutput? || s.consumer.ConsumerDone? ==>
          && s.producer.ProducerDone?
          && forall i :: 0 <= i < |s.workers| ==> s.workers[i].WorkerDone?)
  }

  /** No wakeup is lost. While some thread waits on a condition variable, the threads already
      woken for it and still to re-test are at least as many as the items (or free slots)
      there are; and once a queue is sealed nobody waits to receive from it. */
  ghost predicate Wakeups(c: Config, s: State) {
    && (Total(RecvWaiting, s.workers) > 0 ==>
          !s.input.sealed && |s.input.items| <= Total(RecvWoken, s.workers))
    && (s.producer.Sending? && s.producer.phase.Waiting? ==> |s.input.items| == c.Capacity())
    && (Total(SendWaiting, s.workers) > 0 ==>
          c.Capacity() - |s.output.items| <= Total(SendWoken, s.workers))
    && (s.consumer == Collecting(Waiting) ==> s.output.items == [])
  }

  ghost predicate ControlInv(c: Config, s: State) {
    Control(c, s) && Wakeups(c, s)
  }

  lemma InitControl(c: Config)
    requires c.Valid()
    ensures ControlInv(c, Init(c))
  {
    TotalZero(RecvWaiting, Init(c).workers);
    TotalZero(SendWaiting, Init(c).workers);
  }

  /** How one worker's change moves the four totals. */
  lemma Moves(ws: seq<Worker>, i: nat, x: Worker)
    requires i < |ws|
    ensures Total(RecvWaiting, ws[i := x]) + RecvWaiting(ws[i]) == Total(RecvWaiting, ws) + RecvWaiting(x)
    ensures Total(RecvWoken, ws[i := x]) + RecvWoken(ws[i]) == Total(RecvWoken, ws) + RecvWoken(x)
    ensures Total(SendWaiting, ws[i := x]) + SendWaiting(ws[i]) == Total(SendWaiting, ws) + SendWaiting(x)
    ensures Total(SendWoken, ws[i := x]) + SendWoken(ws[i]) == Total(SendWoken, ws) + SendWoken(x)
  {
    TotalUpdate(RecvWaiting, ws, i, x);
    TotalUpdate(RecvWoken, ws, i, x);
    TotalUpdate(SendWaiting, ws, i, x);
    TotalUpdate(SendWoken, ws, i, x);
  }

  lemma ProduceKeepsControl(c: Config, s: State, wake: Wake)
    requires c.Valid() && ControlInv(c, s) && ProduceEnabled(c, s, wake)
    ensures ControlInv(c, ProduceStep(c, s, wake))
  {
    var t := ProduceStep(c, s, wake);
    if s.producer.Sealing? {
      TotalZero(RecvWaiting, t.workers);
      TotalSame(SendWaiting, s.workers, t.workers);
      TotalSame(SendWoken, s.workers, t.workers);
    } else if TrySend(s.input, s.producer.next).Sent? {
      if wake.NoOne? {
        TotalZero(RecvWaiting, s.workers);
      } else {
        Moves(s.workers, wake.worker, Rouse(s.workers[wake.worker]));
      }
    }
  }

  lemma ReceiveKeepsControl(c: Config, s: State, w: nat)
    requires c.Valid() && ControlInv(c, s) && LaborEnabled(c, s, w) && s.workers[w].Receiving?
    ensures ControlInv(c, LaborStep(c, s, w))
  {
    var t := LaborStep(c, s, w);
    Moves(s.workers, w, t.workers[w]);
    TotalAtLeast(RecvWaiting, t.workers, w);
  }

  lemma DeliverKeepsControl(c: Config, s: State, w: nat)
    requires c.Valid() && ControlInv(c, s) && LaborEnabled(c, s, w) && s.workers[w].Delivering?
    ensures ControlInv(c, LaborStep(c, s, w))
  {
    Moves(s.workers, w, LaborStep(c, s, w).workers[w]);
  }

  lemma ConsumeKeepsControl(c: Config, s: State, wake: Wake)
    requires c.Valid() && ControlInv(c, s) && ConsumeEnabled(c, s, wake)
    ensures ControlInv(c, ConsumeStep(c, s, wake))
  {
    var t := ConsumeStep(c, s, wake);
    if s.consumer.SealingOutput? {
      assert t.workers == s.workers;
    } else if s.consumer.Collecting? && TryRecv(s.output).Received? {
      if wake.NoOne? {
        TotalZero(SendWaiting, s.workers);
      } else {
        Moves(s.workers, wake.worker, Rouse(s.workers[wake.worker]));
      }
    }
  }

  lemma StepKeepsControl(c: Config, s: State, a: Action)
    requires c.Valid() && ControlInv(c, s) && Enabled(c, s, a)
    ensures ControlInv(c, Step(c, s, a))
  {
    match a
    case Produce(wake) => ProduceKeepsControl(c, s, wake);
    case Labor(w) =>
      if s.workers[w].Receiving? {
        ReceiveKeepsControl(c, s, w);
      } else {
        DeliverKeepsControl(c, s, w);
      }
    case Consume(wake) => ConsumeKeepsControl(c, s, wake);
    case WakeProducer =>
    case WakeWorker(w) => Moves(s.workers, w, Rouse(s.workers[w]));
    case WakeConsumer =>
  }

  // ---------- The ledger: where every item is

  function Copies(items: seq<nat>, x: nat): nat {
    if items == [] then 0 else (if items[0] == x then 1 else 0) + Copies(items[1..], x)
  }

  function Origins(jobs: seq<Job>): (r: seq<nat>)
    ensures |r| == |jobs|
  {
    seq(|jobs|, i requires 0 <= i < |jobs| => jobs[i].origin)
  }

  function Holds(x: nat): Worker -> nat {
    (w: Worker) => if w.Delivering? && w.job.origin == x then 1 else 0
  }

  function Busy(w: Worker): nat { if w.Delivering? then 1 else 0 }

  function UnsentCount(c: Config, p: Producer): nat {
    if p.Sending? && p.next < c.items then c.items - p.next else 0
  }

  /** The number of places item `x` is in: still to be sent, in the input queue, in a
      worker's hands, in the output queue, received. */
  function Places(c: Config, s: State, x: nat): nat {
    (if s.producer.Sending? && s.producer.next <= x < c.items then 1 else 0)
    + Copies(s.input.items, x)
    + Total(Holds(x), s.workers)
    + Copies(Origins(s.output.items), x)
    + Copies(Origins(s.received), x)
  }

  function Size(c: Config, s: State): nat {
    UnsentCount(c, s.producer) + |s.input.items| + Total(Busy, s.workers) + |s.output.items| + |s.received|
  }

  predicate Genuine(c: Config, job: Job) {
    job.value == HeavyWork.Work(job.origin, c.rounds)
  }

  ghost predicate GenuineJobs(c: Config, jobs: seq<Job>) {
    forall i :: 0 <= i < |jobs| ==> Genuine(c, jobs[i])
  }

  ghost predicate GenuineWorkers(c: Config, ws: seq<Worker>) {
    forall i :: 0 <= i < |ws| && ws[i].Delivering? ==> Genuine(c, ws[i].job)
  }

  ghost predicate AllGenuine(c: Config, s: State) {
    GenuineWorkers(c, s.workers) && GenuineJobs(c, s.output.items) && GenuineJobs(c, s.received)
  }

  function ValueSum(jobs: seq<Job>): nat {
    if jobs == [] then 0 else ValueSum(jobs[..|jobs| - 1]) + jobs[|jobs| - 1].value
  }

  /** Every item below `items` is in exactly one place, nothing else is anywhere, every
      result is its own item's, and the checksum is the sum of what was received. */
  ghost predicate Conserved(c: Config, s: State) {
    && (forall x: nat :: Places(c, s, x) == if x < c.items then 1 else 0)
    && Size(c, s) == c.items
    && AllGenuine(c, s)
    && s.checksum == ValueSum(s.received)
  }

  lemma {:induction false} CopiesAppend(items: seq<nat>, y: nat, x: nat)
    ensures Copies(items + [y], x) == Copies(items, x) + if x == y then 1 else 0
  {
    if items != [] {
      assert (items + [y])[1..] == items[1..] + [y];
      CopiesAppend(items[1..], y, x);
    }
  }

  lemma OriginsAppend(jobs: seq<Job>, job: Job, x: nat)
    ensures Copies(Origins(jobs + [job]), x) == Copies(Origins(jobs), x) + if x == job.origin then 1 else 0
  {
    assert Origins(jobs + [job]) == Origins(jobs) + [job.origin];
    CopiesAppend(Origins(jobs), job.origin, x);
  }

  lemma OriginsHead(jobs: seq<Job>, x: nat)
    requires jobs != []
    ensures Copies(Origins(jobs), x) == Copies(Origins(jobs[1..]), x) + if x == jobs[0].origin then 1 else 0
  {
    assert Origins(jobs)[1..] == Origins(jobs[1..]);
  }

  lemma InitConserved(c: Config)
    ensures Conserved(c, Init(c))
  {
    TotalZero(Busy, Init(c).workers);
    forall x: nat
      ensures Places(c, Init(c), x) == if x < c.items then 1 else 0
    {
      TotalZero(Holds(x), Init(c).workers);
    }
  }

  lemma ProduceKeepsPlaces(c: Config, s: State, wake: Wake, x: nat)
    requires ControlInv(c, s) && ProduceEnabled(c, s, wake)
    ensures Places(c, ProduceStep(c, s, wake), x) == Places(c, s, x)
    ensures Size(c, ProduceStep(c, s, wake)) == Size(c, s)
  {
    var t := ProduceStep(c, s, wake);
    TotalSame(Holds(x), s.workers, t.workers);
    TotalSame(Busy, s.workers, t.workers);
    if s.producer.Sending? {
      CopiesAppend(s.input.items, s.producer.next, x);
    }
  }

  lemma ReceiveKeepsPlaces(c: Config, s: State, w: nat, x: nat)
    requires ControlInv(c, s) && LaborEnabled(c, s, w) && s.workers[w].Receiving?
    ensures Places(c, LaborStep(c, s, w), x) == Places(c, s, x)
    ensures Size(c, LaborStep(c, s, w)) == Size(c, s)
  {
    var t := LaborStep(c, s, w);
    TotalUpdate(Holds(x), s.workers, w, t.workers[w]);
    TotalUpdate(Busy, s.workers, w, t.workers[w]);
  }

  lemma DeliverKeepsPlaces(c: Config, s: State, w: nat, x: nat)
    requires ControlInv(c, s) && LaborEnabled(c, s, w) && s.workers[w].Delivering?
    ensures Places(c, LaborStep(c, s, w), x) == Places(c, s, x)
    ensures Size(c, LaborStep(c, s, w)) == Size(c, s)
  {
    var t := LaborStep(c, s, w);
    TotalUpdate(Holds(x), s.workers, w, t.workers[w]);
    TotalUpdate(Busy, s.workers, w, t.workers[w]);
    OriginsAppend(s.output.items, s.workers[w].job, x);
  }

  lemma ConsumeKeepsPlaces(c: Config, s: State, wake: Wake, x: nat)
    requires ControlInv(c, s) && ConsumeEnabled(c, s, wake)
    ensures Places(c, ConsumeStep(c, s, wake), x) == Places(c, s, x)
    ensures Size(c, ConsumeStep(c, s, wake)) == Size(c, s)
  {
    var t := ConsumeStep(c, s, wake);
    TotalSame(Holds(x), s.workers, t.workers);
    TotalSame(Busy, s.workers, t.workers);
    if s.consumer.Collecting? && s.output.items != [] {
      OriginsHead(s.output.items, x);
      OriginsAppend(s.received, s.output.items[0], x);
    }
  }

  lemma StepKeepsPlaces(c: Config, s: State, a: Action, x: nat)
    requires ControlInv(c, s) && Enabled(c, s, a)
    ensures Places(c, Step(c, s, a), x) == Places(c, s, x)
    ensures Size(c, Step(c, s, a)) == Size(c, s)
  {
    match a
    case Produce(wake) => ProduceKeepsPlaces(c, s, wake, x);
    case Labor(w) =>
      if s.workers[w].Receiving? {
        ReceiveKeepsPlaces(c, s, w, x);
      } else {
        DeliverKeepsPlaces(c, s, w, x);
      }
    case Consume(wake) => ConsumeKeepsPlaces(c, s, wake, x);
    case WakeProducer =>
    case WakeWorker(w) =>
      TotalSame(Holds(x), s.workers, Step(c, s, a).workers);
      TotalSame(Busy, s.workers, Step(c, s, a).workers);
    case WakeConsumer =>
  }

  lemma WakingKeepsJobs(c: Config, ws: seq<Worker>, wake: Wake)
    requires GenuineWorkers(c, ws) && (wake.Wakes? ==> wake.worker < |ws|)
    ensures GenuineWorkers(c, Signal(ws, wake))
    ensures GenuineWorkers(c, BroadcastReceivers(ws)) && GenuineWorkers(c, BroadcastSenders(ws))
  {
  }

  lemma NewWorkerKeepsJobs(c: Config, ws: seq<Worker>, w: nat, x: Worker)
    requires GenuineWorkers(c, ws) && w < |ws| && (x.Delivering? ==> Genuine(c, x.job))
    ensures GenuineWorkers(c, ws[w := x])
  {
  }

  lemma OneMoreJob(c: Config, jobs: seq<Job>, job: Job)
    requires GenuineJobs(c, jobs) && Genuine(c, job)
    ensures GenuineJobs(c, jobs + [job])
    ensures ValueSum(jobs + [job]) == ValueSum(jobs) + job.value
  {
    assert (jobs + [job])[..|jobs|] == jobs;
  }

  lemma OneJobLess(c: Config, jobs: seq<Job>)
    requires GenuineJobs(c, jobs) && jobs != []
    ensures Genuine(c, jobs[0]) && GenuineJobs(c, jobs[1..])
  {
  }

  lemma LaborKeepsValues(c: Config, s: State, w: nat)
    requires AllGenuine(c, s) && LaborEnabled(c, s, w)
    ensures AllGenuine(c, LaborStep(c, s, w))
  {
    NewWorkerKeepsJobs(c, s.workers, w, LaborStep(c, s, w).workers[w]);
    if s.workers[w].Delivering? {
      OneMoreJob(c, s.output.items, s.workers[w].job);
    }
  }

  lemma ConsumeKeepsValues(c: Config, s: State, wake: Wake)
    requires AllGenuine(c, s) && s.checksum == ValueSum(s.received) && ConsumeEnabled(c, s, wake)
    ensures AllGenuine(c, ConsumeStep(c, s, wake))
    ensures ConsumeStep(c, s, wake).checksum == ValueSum(ConsumeStep(c, s, wake).received)
  {
    WakingKeepsJobs(c, s.workers, wake);
    if s.consumer.Collecting? && TryRecv(s.output).Received? {
      OneJobLess(c, s.output.items);
      OneMoreJob(c, s.received, s.output.items[0]);
    }
  }

  lemma StepKeepsValues(c: Config, s: State, a: Action)
    requires AllGenuine(c, s) && s.checksum == ValueSum(s.received) && Enabled(c, s, a)
    ensures AllGenuine(c, Step(c, s, a))
    ensures Step(c, s, a).checksum == ValueSum(Step(c, s, a).received)
  {
    match a
    case Produce(wake) => WakingKeepsJobs(c, s.workers, wake);
    case Labor(w) => LaborKeepsValues(c, s, w);
    case Consume(wake) => ConsumeKeepsValues(c, s, wake);
    case WakeProducer =>
    case WakeWorker(w) => NewWorkerKeepsJobs(c, s.workers, w, Rouse(s.workers[w]));
    case WakeConsumer =>
  }

  ghost predicate Inv(c: Config, s: State) {
    ControlInv(c, s) && Conserved(c, s)
  }

  lemma StepKeepsInv(c: Config, s: State, a: Action)
    requires c.Valid() && Inv(c, s) && Enabled(c, s, a)
    ensures Inv(c, Step(c, s, a))
  {
    StepKeepsControl(c, s, a);
    StepKeepsPlaces(c, s, a, 0);
    StepKeepsValues(c, s, a);
    forall x: nat
      ensures Places(c, Step(c, s, a), x) == if x < c.items then 1 else 0
    {
      StepKeepsPlaces(c, s, a, x);
    }
  }

  /** Every state of every run satisfies the invariant. */
  lemma RunsKeepInv(c: Config, states: seq<State>, actions: seq<Action>)
    requires c.Valid() && IsRun(c, states, actions)
    ensures forall i :: 0 <= i < |states| ==> Inv(c, states[i])
  {
    InitControl(c);
    InitConserved(c);
    for n := 0 to |actions|
      invariant forall i :: 0 <= i <= n ==> Inv(c, states[i])
    {
      StepKeepsInv(c, states[n], actions[n]);
    }
  }

  // ---------- Order

  function Unsent(c: Config, p: Producer): nat {
    if p.Sending? then p.next else c.items
  }

  /** The numbers from a up to b. */
  function Numbers(a: nat, b: nat): seq<nat>
    requires a <= b
  {
    seq(b - a, i requires 0 <= i => a + i)
  }

  /** The item that a worker gets in this step, and the job that one hands over, as the workers
      show it. */
  function Taken(c: Config, s: State, a: Action): seq<nat>
    requires Enabled(c, s, a)
  {
    if !a.Labor? || !s.workers[a.w].Receiving? then []
    else
      var worker := Step(c, s, a).workers[a.w];
      if worker.Delivering? then [worker.job.origin] else []
  }

  function Handed(c: Config, s: State, a: Action): seq<Job>
    requires Enabled(c, s, a)
  {
    if a.Labor? && s.workers[a.w].Delivering? && Step(c, s, a).workers[a.w].Receiving? then [s.workers[a.w].job] else []
  }

  /** The step takes from the front of a queue and adds at its end. */
  ghost predicate Ordered(c: Config, s: State, a: Action)
    requires Enabled(c, s, a)
  {
    var t := Step(c, s, a);
    && Unsent(c, s.producer) <= Unsent(c, t.producer) <= c.items
    && Taken(c, s, a) + t.input.items == s.input.items + Numbers(Unsent(c, s.producer), Unsent(c, t.producer))
    && t.received + t.output.items == s.received + s.output.items + Handed(c, s, a)
  }

  lemma ProduceKeepsOrder(c: Config, s: State, wake: Wake)
    requires Inv(c, s) && ProduceEnabled(c, s, wake)
    ensures Ordered(c, s, Produce(wake))
  {
  }

  lemma LaborKeepsOrder(c: Config, s: State, w: nat)
    requires Inv(c, s) && LaborEnabled(c, s, w)
    ensures Ordered(c, s, Labor(w))
  {
    if s.workers[w].Receiving? && s.input.items != [] {
      assert s.input.items == [s.input.items[0]] + s.input.items[1..];
    }
  }

  lemma ConsumeKeepsOrder(c: Config, s: State, wake: Wake)
    requires Inv(c, s) && ConsumeEnabled(c, s, wake)
    ensures Ordered(c, s, Consume(wake))
  {
    if s.output.items != [] {
      assert s.output.items == [s.output.items[0]] + s.output.items[1..];
    }
  }

  lemma StepKeepsOrder(c: Config, s: State, a: Action)
    requires Inv(c, s) && Enabled(c, s, a)
    ensures Ordered(c, s, a)
  {
    match a
    case Produce(wake) => ProduceKeepsOrder(c, s, wake);
    case Labor(w) => LaborKeepsOrder(c, s, w);
    case Consume(wake) => ConsumeKeepsOrder(c, s, wake);
    case _ =>
  }

  /** What all workers together got in the first n steps of a run, in order of time. */
  ghost function TakenUpTo(c: Config, states: seq<State>, actions: seq<Action>, n: nat): seq<nat>
    requires IsRun(c, states, actions) && n <= |actions|
  {
    if n == 0 then [] else TakenUpTo(c, states, actions, n - 1) + Taken(c, states[n - 1], actions[n - 1])
  }

  ghost function HandedUpTo(c: Config, states: seq<State>, actions: seq<Action>, n: nat): seq<Job>
    requires IsRun(c, states, actions) && n <= |actions|
  {
    if n == 0 then [] else HandedUpTo(c, states, actions, n - 1) + Handed(c, states[n - 1], actions[n - 1])
  }

  /** In every state of every run: the items that workers have got so far, followed by those in the
      input queue, are 0, 1, 2, ... up to the next unsent one, so items are taken in the order
      they were sent; and main has received the jobs in the order in which workers handed them over. */
  lemma {:induction false} RunsKeepOrder(c: Config, states: seq<State>, actions: seq<Action>, n: nat)
    requires c.Valid() && IsRun(c, states, actions) && n <= |actions|
    ensures Unsent(c, states[n].producer) <= c.items
    ensures TakenUpTo(c, states, actions, n) + states[n].input.items == Numbers(0, Unsent(c, states[n].producer))
    ensures states[n].received + states[n].output.items == HandedUpTo(c, states, actions, n)
  {
    if n > 0 {
      RunsKeepInv(c, states, actions);
      RunsKeepOrder(c, states, actions, n - 1);
      var s, t := states[n - 1], states[n];
      StepKeepsOrder(c, s, actions[n - 1]);
      OrderExtends(TakenUpTo(c, states, actions, n - 1), Taken(c, s, actions[n - 1]), s.input.items, t.input.items,
                   Unsent(c, s.producer), Unsent(c, t.producer));
    }
  }

  lemma OrderExtends(before: seq<nat>, taken: seq<nat>, items: seq<nat>, later: seq<nat>, a: nat, b: nat)
    requires a <= b && before + items == Numbers(0, a) && taken + later == items + Numbers(a, b)
    ensures (before + taken) + later == Numbers(0, b)
  {
    Associative(before, taken, later);
    Associative(before, items, Numbers(a, b));
    assert Numbers(0, a) + Numbers(a, b) == Numbers(0, b);
  }

  // ---------- No run is ever stuck

  ghost predicate Finished(s: State) {
    && s.producer.ProducerDone?
    && s.consumer.ConsumerDone?
    && forall i :: 0 <= i < |s.workers| ==> s.workers[i].WorkerDone?
  }

  /** Some thread can take a step of its own, without a spurious wakeup. */
  ghost predicate CanProgress(c: Config, s: State) {
    exists a: Action :: Enabled(c, s, a) && !Spurious(a)
  }

  lemma ReceiverToSignal(ws: seq<Worker>) returns (wake: Wake)
    ensures SignalsReceiver(ws, wake)
  {
    if i :| 0 <= i < |ws| && ws[i] == Receiving(Waiting) {
      wake := Wakes(i);
    } else {
      wake := NoOne;
    }
  }

  lemma SenderToSignal(ws: seq<Worker>) returns (wake: Wake)
    ensures SignalsSender(ws, wake)
  {
    if i :| 0 <= i < |ws| && ws[i].Delivering? && ws[i].phase.Waiting? {
      wake := Wakes(i);
    } else {
      wake := NoOne;
    }
  }

  lemma ProducerCanMove(c: Config, s: State)
    requires s.producer.Sealing? || (s.producer.Sending? && !s.producer.phase.Waiting?)
    ensures CanProgress(c, s)
  {
    var wake := NoOne;
    if s.producer.Sending? && TrySend(s.input, s.producer.next).Sent? {
      wake := ReceiverToSignal(s.workers);
    }
    assert Enabled(c, s, Produce(wake));
  }

  lemma CollectorCanMove(c: Config, s: State)
    requires s.consumer.Collecting? && !s.consumer.phase.Waiting?
    ensures CanProgress(c, s)
  {
    var wake := NoOne;
    if TryRecv(s.output).Received? {
      wake := SenderToSignal(s.workers);
    }
    assert Enabled(c, s, Consume(wake));
  }

  /** A worker that is neither done nor waiting can step. */
  lemma WorkerCanMove(c: Config, s: State, w: nat)
    requires w < |s.workers| && !s.workers[w].WorkerDone? && !s.workers[w].phase.Waiting?
    ensures CanProgress(c, s)
  {
    assert Enabled(c, s, Labor(w));
  }

  ghost predicate AllQuiet(s: State) {
    && (s.producer.ProducerDone? || (s.producer.Sending? && s.producer.phase.Waiting?))
    && forall i :: 0 <= i < |s.workers| ==> s.workers[i].WorkerDone? || s.workers[i].phase.Waiting?
  }

  /** When neither the producer nor a worker can step, none of them waits to receive, and
      one that waits to send faces a full output queue. */
  lemma QuietWorkers(c: Config, s: State)
    requires c.Valid() && ControlInv(c, s) && AllQuiet(s)
    ensures forall i :: 0 <= i < |s.workers| && s.workers[i].Delivering? ==> |s.output.items| == c.Capacity()
    ensures s.producer.ProducerDone? ==> forall i :: 0 <= i < |s.workers| ==> !s.workers[i].Receiving?
    ensures !s.producer.ProducerDone? ==> forall i :: 0 <= i < |s.workers| ==> s.workers[i].Delivering?
  {
    TotalZero(RecvWoken, s.workers);
    TotalZero(SendWoken, s.workers);
    forall i | 0 <= i < |s.workers|
      ensures s.workers[i].Delivering? ==> |s.output.items| == c.Capacity()
      ensures s.workers[i].Receiving? ==> !s.producer.ProducerDone? && s.input.items == []
    {
      TotalAtLeast(RecvWaiting, s.workers, i);
      TotalAtLeast(SendWaiting, s.workers, i);
    }
  }

  /** Deadlock freedom: in every state of every run, until all threads have finished, some
      thread can take a step. */
  lemma NeverStuck(c: Config, s: State)
    requires c.Valid() && Inv(c, s) && !Finished(s)
    ensures CanProgress(c, s)
  {
    if !AllQuiet(s) {
      if w :| 0 <= w < |s.workers| && !s.workers[w].WorkerDone? && !s.workers[w].phase.Waiting? {
        WorkerCanMove(c, s, w);
      } else {
        ProducerCanMove(c, s);
      }
      return;
    }
    QuietWorkers(c, s);
    match s.consumer
    case Collecting(phase) =>
      if phase.Waiting? {
        assert forall i :: 0 <= i < |s.workers| ==> s.workers[i].WorkerDone?;
        assert s.workers[0].WorkerDone?;
        TotalZero(Busy, s.workers);
        assert false;
      } else {
        CollectorCanMove(c, s);
      }
    case Joining(k) =>
      assert s.input.items == [] && s.output.items == [];
      assert s.producer.ProducerDone?;
      if k > 0 {
        assert s.workers[k - 1].WorkerDone?;
      }
      assert Enabled(c, s, Consume(NoOne));
    case SealingOutput =>
      assert Enabled(c, s, Consume(NoOne));
    case ConsumerDone =>
  }

  /** The run-level safety statement: whatever the schedule, every state a run passes
      through either has all threads finished or lets some thread step, and every send that
      is about to be tested finds its queue open. */
  lemma RunsNeverStickOrRefuse(c: Config, states: seq<State>, actions: seq<Action>, i: nat)
    requires c.Valid() && IsRun(c, states, actions) && i < |states|
    ensures Finished(states[i]) || CanProgress(c, states[i])
    ensures states[i].producer.Sending? ==> !TrySend(states[i].input, states[i].producer.next).SendRefused?
    ensures forall w :: 0 <= w < |states[i].workers| && states[i].workers[w].Delivering? ==>
              !TrySend(states[i].output, states[i].workers[w].job).SendRefused?
  {
    RunsKeepInv(c, states, actions);
    if !Finished(states[i]) {
      NeverStuck(c, states[i]);
    }
  }

  // ---------- Every run ends

  function Alive(w: Worker): nat { if w.WorkerDone? then 0 else 1 }

  function Active(w: Worker): nat { if w.WorkerDone? || w.phase.Waiting? then 0 else 1 }

  /** The operations still to complete: four per unsent item, three per queued item, two per
      item in hand, one per result to collect, and the exits of the threads. */
  function Remaining(c: Config, s: State): nat {
    4 * UnsentCount(c, s.producer) + 3 * |s.input.items| + 2 * Total(Busy, s.workers) + |s.output.items|
    + (if s.producer.ProducerDone? then 0 else 1)
    + Total(Alive, s.workers)
    + (match s.consumer
       case Collecting(_) => c.workers + 2
       case Joining(k) => if k <= c.workers then c.workers + 2 - k else 1
       case SealingOutput => 1
       case ConsumerDone => 0)
  }

  /** The threads that are not blocked in a wait. */
  function Runnable(s: State): nat {
    (if s.producer.ProducerDone? || (s.producer.Sending? && s.producer.phase.Waiting?) then 0 else 1)
    + Total(Active, s.workers)
    + (if s.consumer.ConsumerDone? || s.consumer == Collecting(Waiting) then 0 else 1)
  }

  /** An operation completes, or a thread that could run goes to wait. */
  ghost predicate Advances(c: Config, s: State, t: State) {
    || Remaining(c, t) < Remaining(c, s)
    || (Remaining(c, t) == Remaining(c, s) && Runnable(t) < Runnable(s))
  }

  lemma ProduceAdvances(c: Config, s: State, wake: Wake)
    requires ControlInv(c, s) && ProduceEnabled(c, s, wake)
    ensures Advances(c, s, ProduceStep(c, s, wake))
  {
    var t := ProduceStep(c, s, wake);
    TotalSame(Busy, s.workers, t.workers);
    TotalSame(Alive, s.workers, t.workers);
  }

  lemma ReceiveAdvances(c: Config, s: State, w: nat)
    requires ControlInv(c, s) && LaborEnabled(c, s, w) && s.workers[w].Receiving?
    ensures Advances(c, s, LaborStep(c, s, w))
  {
    var t := LaborStep(c, s, w);
    TotalUpdate(Busy, s.workers, w, t.workers[w]);
    TotalUpdate(Alive, s.workers, w, t.workers[w]);
    TotalUpdate(Active, s.workers, w, t.workers[w]);
  }

  lemma DeliverBlocks(c: Config, s: State, w: nat)
    requires LaborEnabled(c, s, w) && s.workers[w].Delivering? && TrySend(s.output, s.workers[w].job).SendBlocks?
    ensures Advances(c, s, LaborStep(c, s, w))
  {
    var waiting := Delivering(s.workers[w].job, Waiting);
    TotalUpdate(Busy, s.workers, w, waiting);
    TotalUpdate(Alive, s.workers, w, waiting);
    TotalUpdate(Active, s.workers, w, waiting);
  }

  lemma DeliverEnds(c: Config, s: State, w: nat)
    requires LaborEnabled(c, s, w) && s.workers[w].Delivering? && !TrySend(s.output, s.workers[w].job).SendBlocks?
    ensures Advances(c, s, LaborStep(c, s, w))
  {
    TotalUpdate(Busy, s.workers, w, Receiving(Ready));
    TotalUpdate(Alive, s.workers, w, Receiving(Ready));
  }

  lemma DeliverAdvances(c: Config, s: State, w: nat)
    requires LaborEnabled(c, s, w) && s.workers[w].Delivering?
    ensures Advances(c, s, LaborStep(c, s, w))
  {
    if TrySend(s.output, s.workers[w].job).SendBlocks? {
      DeliverBlocks(c, s, w);
    } else {
      DeliverEnds(c, s, w);
    }
  }

  lemma ConsumeAdvances(c: Config, s: State, wake: Wake)
    requires ControlInv(c, s) && ConsumeEnabled(c, s, wake)
    ensures Advances(c, s, ConsumeStep(c, s, wake))
  {
    var t := ConsumeStep(c, s, wake);
    TotalSame(Busy, s.workers, t.workers);
    TotalSame(Alive, s.workers, t.workers);
  }

  function Potential(c: Config, s: State): nat {
    Remaining(c, s) * (c.workers + 3) + Runnable(s)
  }

  lemma RunnableBound(c: Config, s: State)
    requires Control(c, s)
    ensures Runnable(s) <= c.workers + 2
  {
    TotalAtMost(Active, s.workers);
  }

  lemma AdvanceLowersPotential(c: Config, s: State, t: State)
    requires Control(c, t) && Advances(c, s, t)
    ensures Potential(c, t) < Potential(c, s)
  {
    RunnableBound(c, t);
    var before, after := Remaining(c, s), Remaining(c, t);
    if after < before {
      Arithmetic.ProductGap(after, before, c.workers + 3);
    }
  }

  lemma WakeupRaisesPotential(c: Config, s: State, a: Action)
    requires Enabled(c, s, a) && Spurious(a)
    ensures Potential(c, Step(c, s, a)) == Potential(c, s) + 1
  {
    var t := Step(c, s, a);
    if a.WakeWorker? {
      TotalUpdate(Busy, s.workers, a.w, t.workers[a.w]);
      TotalUpdate(Alive, s.workers, a.w, t.workers[a.w]);
      TotalUpdate(Active, s.workers, a.w, t.workers[a.w]);
    }
    assert Remaining(c, t) == Remaining(c, s);
  }

  lemma StepMovesPotential(c: Config, s: State, a: Action)
    requires c.Valid() && Inv(c, s) && Enabled(c, s, a)
    ensures 1 + Potential(c, Step(c, s, a)) <= Potential(c, s) + if Spurious(a) then 2 else 0
  {
    match a {
      case Produce(wake) => ProduceAdvances(c, s, wake);
      case Labor(w) =>
        if s.workers[w].Receiving? {
          ReceiveAdvances(c, s, w);
        } else {
          DeliverAdvances(c, s, w);
        }
      case Consume(wake) => ConsumeAdvances(c, s, wake);
      case WakeProducer => WakeupRaisesPotential(c, s, a);
      case WakeWorker(_) => WakeupRaisesPotential(c, s, a);
      case WakeConsumer => WakeupRaisesPotential(c, s, a);
    }
    if !Spurious(a) {
      StepKeepsControl(c, s, a);
      AdvanceLowersPotential(c, s, Step(c, s, a));
    }
  }

  function SpuriousCount(actions: seq<Action>): nat {
    if actions == [] then 0
    else SpuriousCount(actions[..|actions| - 1]) + if Spurious(actions[|actions| - 1]) then 1 else 0
  }

  /** Termination: a run with `k` spurious wakeups takes at most a fixed number of steps plus
      two per spurious wakeup, whatever the schedule. */
  lemma RunsAreBounded(c: Config, states: seq<State>, actions: seq<Action>)
    requires c.Valid() && IsRun(c, states, actions)
    ensures |actions| + Potential(c, states[|actions|]) <= Potential(c, Init(c)) + 2 * SpuriousCount(actions)
  {
    RunsKeepInv(c, states, actions);
    ghost var levels := seq(|states|, i requires 0 <= i < |states| => Potential(c, states[i]));
    forall i | 0 <= i < |actions|
      ensures 1 + levels[i + 1] <= levels[i] + if Spurious(actions[i]) then 2 else 0
    {
      StepMovesPotential(c, states[i], actions[i]);
    }
    DescentIsBounded(levels, actions);
  }

  lemma {:induction false} DescentIsBounded(levels: seq<nat>, actions: seq<Action>)
    requires |levels| == |actions| + 1
    requires forall i :: 0 <= i < |actions| ==>
               1 + levels[i + 1] <= levels[i] + if Spurious(actions[i]) then 2 else 0
    ensures |actions| + levels[|actions|] <= levels[0] + 2 * SpuriousCount(actions)
    decreases |actions|
  {
    var n := |actions|;
    if n > 0 {
      DescentIsBounded(levels[..n], actions[..n - 1]);
    }
  }

  // ---------- The result does not depend on the schedule

  function Weighted(origins: seq<nat>, n: nat, rounds: nat): nat {
    if n == 0 then 0
    else Weighted(origins, n - 1, rounds) + Copies(origins, n - 1) * HeavyWork.Work(n - 1, rounds)
  }

  lemma {:induction false} WeightedAppend(origins: seq<nat>, y: nat, n: nat, rounds: nat)
    ensures Weighted(origins + [y], n, rounds)
         == Weighted(origins, n, rounds) + if y < n then HeavyWork.Work(y, rounds) else 0
  {
    if n > 0 {
      WeightedAppend(origins, y, n - 1, rounds);
      CopiesAppend(origins, y, n - 1);
      var h := HeavyWork.Work(n - 1, rounds);
      assert (Copies(origins, n - 1) + 1) * h == Copies(origins, n - 1) * h + h;
    }
  }

  lemma {:induction false} WeightedNothing(n: nat, rounds: nat)
    ensures Weighted([], n, rounds) == 0
  {
    if n > 0 {
      WeightedNothing(n - 1, rounds);
    }
  }

  lemma {:induction false} WeightedOnce(origins: seq<nat>, n: nat, rounds: nat)
    requires forall x: nat :: x < n ==> Copies(origins, x) == 1
    ensures Weighted(origins, n, rounds) == HeavyWork.SequentialSum(n, rounds)
  {
    if n > 0 {
      WeightedOnce(origins, n - 1, rounds);
    }
  }

  lemma {:induction false} CopiesOfMember(items: seq<nat>, i: nat)
    requires i < |items|
    ensures Copies(items, items[i]) >= 1
  {
    if i > 0 {
      CopiesOfMember(items[1..], i - 1);
    }
  }

  lemma {:induction false} ValueSumIsWeighted(c: Config, jobs: seq<Job>, n: nat)
    requires forall i :: 0 <= i < |jobs| ==> Genuine(c, jobs[i]) && jobs[i].origin < n
    ensures ValueSum(jobs) == Weighted(Origins(jobs), n, c.rounds)
  {
    if jobs == [] {
      WeightedNothing(n, c.rounds);
      assert Origins(jobs) == [];
    } else {
      var front, last := jobs[..|jobs| - 1], jobs[|jobs| - 1];
      ValueSumIsWeighted(c, front, n);
      assert Origins(jobs) == Origins(front) + [last.origin];
      WeightedAppend(Origins(front), last.origin, n, c.rounds);
    }
  }

  /** Results that come from each item exactly once add up to the sequential sum. */
  lemma EachOnceSum(c: Config, jobs: seq<Job>)
    requires forall i :: 0 <= i < |jobs| ==> Genuine(c, jobs[i])
    requires forall x: nat :: Copies(Origins(jobs), x) == if x < c.items then 1 else 0
    ensures ValueSum(jobs) == HeavyWork.SequentialSum(c.items, c.rounds)
  {
    forall i | 0 <= i < |jobs|
      ensures jobs[i].origin < c.items
    {
      CopiesOfMember(Origins(jobs), i);
    }
    ValueSumIsWeighted(c, jobs, c.items);
    WeightedOnce(Origins(jobs), c.items, c.rounds);
  }

  /** Once the main thread has left its receive loop, whatever the interleaving was, it has
      received every item exactly once and its checksum is that of a sequential run. */
  lemma ChecksumIsSequential(c: Config, s: State)
    requires c.Valid() && Inv(c, s) && !s.consumer.Collecting?
    ensures |s.received| == c.items
    ensures forall x: nat :: Copies(Origins(s.received), x) == if x < c.items then 1 else 0
    ensures s.checksum == HeavyWork.SequentialSum(c.items, c.rounds)
  {
    assert s.input.items == [] && s.output.items == [] && Total(Busy, s.workers) == 0;
    forall x: nat
      ensures Copies(Origins(s.received), x) == if x < c.items then 1 else 0
    {
      assert Places(c, s, x) == if x < c.items then 1 else 0;
      NobodyHolds(s.workers, x);
      assert Origins(s.output.items) == [];
    }
    EachOnceSum(c, s.received);
  }

  lemma {:induction false} NobodyHolds(ws: seq<Worker>, x: nat)
    requires Total(Busy, ws) == 0
    ensures Total(Holds(x), ws) == 0
  {
    if ws != [] {
      NobodyHolds(ws[1..], x);
    }
  }

  /** Every run that cannot be continued by a thread's own step has finished, with the
      sequential checksum and `items` results. */
  lemma MaximalRunsAreCorrect(c: Config, states: seq<State>, actions: seq<Action>)
    requires c.Valid() && IsRun(c, states, actions)
    requires !CanProgress(c, states[|actions|])
    ensures var last := states[|actions|];
            && Finished(last)
            && |last.received| == c.items
            && last.checksum == HeavyWork.SequentialSum(c.items, c.rounds)
  {
    RunsKeepInv(c, states, actions);
    var last := states[|actions|];
    if !Finished(last) {
      NeverStuck(c, last);
      assert false;
    }
    ChecksumIsSequential(c, last);
  }
}
