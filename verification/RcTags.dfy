/** Reference-count attribution as the instrumented program performs it
    (blorp/scripts/attribution/instrument_rc.py). Rewritten calls set one global tag and every
    atomic operation counts under whatever that tag is at the time. The trees below are
    executions: the atomic operations and calls of each function body in the order they ran. */
module RcTags {
  import opened Sequences

  datatype Category =
    | Untagged
    | Unmarked
    | Region(name: string)
    | Cascade(parent: string)
    | RuntimeList(operation: string)
    | RuntimeOther

  /** The two halves of `blorp_rc_tag`. */
  datatype Tag = Tag(number: nat, category: Category)

  /** Kind and direction of an operation, packed: five kinds, two directions. */
  type Cell = c: nat | c < 10

  /** An executed atomic operation, counted in row `tag` and column `cell`. */
  datatype Entry = Entry(tag: Tag, cell: Cell)

  /** `Call` is a call the rewriting makes set the tag. `Bare` is one it leaves alone: of a
      function that is not a helper, or before a drop helper's first operation. */
  datatype Step = Operation(cell: Cell) | Call(callee: Routine) | Bare(callee: Routine)

  /** A function that is not a user function. `Saving` is a helper with no atomic operation in
      its text, which saves the tag on entry and restores it before each call. `Drop` is a drop
      helper with one. `Other` is any other function, and `category` what its calls are
      tagged with: a list function, another runtime function, or a helper whose calls are
      all left alone. */
  datatype Routine =
    | Saving(body: seq<Step>)
    | Drop(parent: string, body: seq<Step>)
    | Other(category: Category, body: seq<Step>)

  /** What a user function executes: helper calls in a marker region, calls of list and String
      functions, calls of runtime functions that set no tag, and calls of user functions. */
  datatype Code =
    | Stop
    | Help(category: Category, helper: Routine, next: Code)
    | Runtime(routine: Routine, next: Code)
    | Unseen(routine: Routine, next: Code)
    | Enter(number: nat, code: Code, next: Code)

  // ---------- What happens: one tag, shared by everybody

  /** The tag that a rewritten call sets: the saved one, or new category bits. */
  function Given(r: Routine, saved: Tag, now: Tag): Tag {
    match r
    case Saving(_) => saved
    case Drop(parent, _) => now.(category := Cascade(parent))
    case Other(category, _) => now.(category := category)
  }

  /** The tag before step n of a routine entered under `entry`: what the last call left. */
  function TagAt(r: Routine, n: nat, entry: Tag): Tag
    requires n <= |r.body|
    decreases r, n
  {
    if n == 0 then entry
    else
      var now := TagAt(r, n - 1, entry);
      match r.body[n - 1]
      case Operation(_) => now
      case Call(callee) => Leaves(callee, Given(r, entry, now))
      case Bare(callee) => Leaves(callee, now)
  }

  function Leaves(r: Routine, entry: Tag): Tag
    decreases r, |r.body| + 1
  {
    TagAt(r, |r.body|, entry)
  }

  function StepLog(r: Routine, n: nat, entry: Tag): seq<Entry>
    requires n < |r.body|
    decreases r, n
  {
    var now := TagAt(r, n, entry);
    match r.body[n]
    case Operation(cell) => [Entry(now, cell)]
    case Call(callee) => Log(callee, Given(r, entry, now))
    case Bare(callee) => Log(callee, now)
  }

  function LogUpTo(r: Routine, n: nat, entry: Tag): seq<Entry>
    requires n <= |r.body|
    decreases r, n
  {
    if n == 0 then [] else LogUpTo(r, n - 1, entry) + StepLog(r, n - 1, entry)
  }

  function Log(r: Routine, entry: Tag): seq<Entry>
    decreases r, |r.body| + 1
  {
    LogUpTo(r, |r.body|, entry)
  }

  // ---------- What is meant: attribution by position in the call tree

  /** A drop helper's first operation is its caller's; from then on it frees children. */
  predicate Operated(body: seq<Step>, n: nat)
    requires n <= |body|
  {
    exists i :: 0 <= i < n && body[i].Operation?
  }

  function MeantOwn(r: Routine, n: nat, meant: Tag): Tag
    requires n <= |r.body|
  {
    if r.Drop? && Operated(r.body, n) then meant.(category := Cascade(r.parent)) else meant
  }

  function MeantStep(r: Routine, n: nat, meant: Tag): seq<Entry>
    requires n < |r.body|
    decreases r, n
  {
    match r.body[n]
    case Operation(cell) => [Entry(MeantOwn(r, n, meant), cell)]
    case Call(callee) => Meant(callee, Given(r, meant, meant))
    case Bare(callee) => Meant(callee, MeantOwn(r, n, meant))
  }

  function MeantUpTo(r: Routine, n: nat, meant: Tag): seq<Entry>
    requires n <= |r.body|
    decreases r, n
  {
    if n == 0 then [] else MeantUpTo(r, n - 1, meant) + MeantStep(r, n - 1, meant)
  }

  /** The operations of a routine that runs on behalf of `meant`. No order among siblings and
      no shared tag: a helper without an operation of its own passes the tag on, a drop helper
      counts what it frees as its cascade, other functions as their category says. */
  function Meant(r: Routine, meant: Tag): seq<Entry>
    decreases r, |r.body| + 1
  {
    MeantUpTo(r, |r.body|, meant)
  }

  // ---------- The function bits

  ghost predicate AllInFunction(log: seq<Entry>, number: nat) {
    forall i :: 0 <= i < |log| ==> log[i].tag.number == number
  }

  /** Nothing below a user function's call changes the function bits that call set. */
  lemma {:induction false} RoutinesKeepFunction(r: Routine, entry: Tag)
    ensures Leaves(r, entry).number == entry.number
    ensures AllInFunction(Log(r, entry), entry.number)
    decreases r, |r.body| + 1
  {
    StepsKeepFunction(r, |r.body|, entry);
  }

  lemma {:induction false} StepsKeepFunction(r: Routine, n: nat, entry: Tag)
    requires n <= |r.body|
    ensures TagAt(r, n, entry).number == entry.number
    ensures AllInFunction(LogUpTo(r, n, entry), entry.number)
    decreases r, n
  {
    if n > 0 {
      StepsKeepFunction(r, n - 1, entry);
      var now := TagAt(r, n - 1, entry);
      match r.body[n - 1]
      case Operation(_) =>
      case Call(callee) => RoutinesKeepFunction(callee, Given(r, entry, now));
      case Bare(callee) => RoutinesKeepFunction(callee, now);
    }
  }

  // ---------- The shared tag attributes as meant, and exactly when

  /** The operations a routine performs, with everything it calls. */
  function Operations(r: Routine): nat
    decreases r, |r.body| + 1
  {
    OperationsUpTo(r, |r.body|)
  }

  function OperationsUpTo(r: Routine, n: nat): nat
    requires n <= |r.body|
    decreases r, n
  {
    if n == 0 then 0
    else OperationsUpTo(r, n - 1) + if r.body[n - 1].Operation? then 1 else Operations(r.body[n - 1].callee)
  }

  /** Both accounts list the same operations, under whatever tags. */
  lemma {:induction false} EveryOperationCounts(r: Routine, now: Tag, meant: Tag)
    ensures |Log(r, now)| == |Meant(r, meant)| == Operations(r)
    decreases r, |r.body| + 1
  {
    StepsCount(r, |r.body|, now, meant);
  }

  lemma {:induction false} StepsCount(r: Routine, n: nat, now: Tag, meant: Tag)
    requires n <= |r.body|
    ensures |LogUpTo(r, n, now)| == |MeantUpTo(r, n, meant)| == OperationsUpTo(r, n)
    decreases r, n
  {
    if n > 0 {
      StepsCount(r, n - 1, now, meant);
      var at := TagAt(r, n - 1, now);
      match r.body[n - 1]
      case Operation(_) =>
      case Call(callee) => EveryOperationCounts(callee, Given(r, now, at), Given(r, meant, meant));
      case Bare(callee) => EveryOperationCounts(callee, at, MeantOwn(r, n - 1, meant));
    }
  }

  /** The position of the last call before step n, or -1. */
  function LastCall(body: seq<Step>, n: nat): (k: int)
    requires n <= |body|
    ensures -1 <= k < n
    ensures k >= 0 ==> !body[k].Operation?
    ensures forall i :: k < i < n ==> body[i].Operation?
  {
    if n == 0 then -1 else if !body[n - 1].Operation? then n - 1 else LastCall(body, n - 1)
  }

  /** The category that a rewritten call in r sets, where r itself was entered under c. */
  function Under(r: Routine, c: Category): Category {
    match r
    case Saving(_) => c
    case Drop(parent, _) => Cascade(parent)
    case Other(category, _) => category
  }

  /** The category in force before step n of a routine entered under c, read off the code: what
      the last call leaves, and that is what the last call in it leaves, and so on. */
  function Final(r: Routine, n: nat, c: Category): Category
    requires n <= |r.body|
    decreases r, n
  {
    var k := LastCall(r.body, n);
    if k < 0 then c
    else if r.body[k].Call? then LeftBy(r.body[k].callee, Under(r, c))
    else LeftBy(r.body[k].callee, Final(r, k, c))
  }

  function LeftBy(r: Routine, c: Category): Category
    decreases r, |r.body| + 1
  {
    Final(r, |r.body|, c)
  }

  /** What an operation of r, which runs on behalf of `meant`, should count as. */
  function Deserved(r: Routine, n: nat, meant: Category): Category
    requires n <= |r.body|
  {
    if r.Drop? && Operated(r.body, n) then Cascade(r.parent) else meant
  }

  /** Entered under `now` and running on behalf of `meant`: at every operation, here and in
      everything called, the chain of last calls leaves the category that it should count as. */
  predicate Orderly(r: Routine, now: Category, meant: Category)
    decreases r, |r.body| + 1
  {
    OrderlyUpTo(r, |r.body|, now, meant)
  }

  predicate OrderlyUpTo(r: Routine, n: nat, now: Category, meant: Category)
    requires n <= |r.body|
    decreases r, n
  {
    n > 0 ==> OrderlyUpTo(r, n - 1, now, meant) && StepOrderly(r, n - 1, now, meant)
  }

  predicate StepOrderly(r: Routine, n: nat, now: Category, meant: Category)
    requires n < |r.body|
    decreases r, n
  {
    match r.body[n]
    case Operation(_) => Final(r, n, now) == Deserved(r, n, meant)
    case Call(callee) => Orderly(callee, Under(r, now), Under(r, meant))
    case Bare(callee) => Orderly(callee, Final(r, n, now), Deserved(r, n, meant))
  }

  ghost predicate OrderlyAt(r: Routine, n: nat, now: Category, meant: Category) {
    n < |r.body| && StepOrderly(r, n, now, meant)
  }

  lemma {:induction false} OrderlyMeans(r: Routine, n: nat, now: Category, meant: Category)
    requires n <= |r.body|
    ensures OrderlyUpTo(r, n, now, meant) <==> forall i :: 0 <= i < n ==> OrderlyAt(r, i, now, meant)
  {
    if n > 0 {
      OrderlyMeans(r, n - 1, now, meant);
      assert OrderlyAt(r, n - 1, now, meant) <==> StepOrderly(r, n - 1, now, meant);
    }
  }

  /** The running tag is nobody's history but that of the last calls. */
  lemma {:induction false} TagIsFinal(r: Routine, n: nat, entry: Tag)
    requires n <= |r.body|
    ensures TagAt(r, n, entry) == Tag(entry.number, Final(r, n, entry.category))
    decreases r, n
  {
    if n > 0 {
      TagIsFinal(r, n - 1, entry);
      var now := TagAt(r, n - 1, entry);
      match r.body[n - 1]
      case Operation(_) =>
      case Call(callee) => LeavesIsLeft(callee, Given(r, entry, now));
      case Bare(callee) => LeavesIsLeft(callee, now);
    }
  }

  lemma {:induction false} LeavesIsLeft(r: Routine, entry: Tag)
    ensures Leaves(r, entry) == Tag(entry.number, LeftBy(r, entry.category))
    decreases r, |r.body| + 1
  {
    TagIsFinal(r, |r.body|, entry);
  }

  lemma SplitEqual<T>(a: seq<T>, b: seq<T>, c: seq<T>, d: seq<T>)
    requires |a| == |c|
    ensures a + b == c + d <==> a == c && b == d
  {
    if a + b == c + d {
      assert a == (a + b)[..|a|] == (c + d)[..|a|] == c;
      assert b == (a + b)[|a|..] == (c + d)[|a|..] == d;
    }
  }

  /** Over every tree of calls, with operations and calls interleaved in any way: the shared tag
      counts as meant if and only if the chains of last calls are orderly. */
  lemma {:induction false} CountsAsMeantIff(r: Routine, now: Tag, meant: Tag)
    requires now.number == meant.number
    ensures Log(r, now) == Meant(r, meant) <==> Orderly(r, now.category, meant.category)
    decreases r, |r.body| + 1
  {
    StepsCountAsMeantIff(r, |r.body|, now, meant);
  }

  lemma {:induction false} StepsCountAsMeantIff(r: Routine, n: nat, now: Tag, meant: Tag)
    requires n <= |r.body| && now.number == meant.number
    ensures LogUpTo(r, n, now) == MeantUpTo(r, n, meant) <==> OrderlyUpTo(r, n, now.category, meant.category)
    decreases r, n
  {
    if n > 0 {
      StepsCountAsMeantIff(r, n - 1, now, meant);
      StepsCount(r, n - 1, now, meant);
      StepCountsAsMeantIff(r, n - 1, now, meant);
      SplitEqual(LogUpTo(r, n - 1, now), StepLog(r, n - 1, now), MeantUpTo(r, n - 1, meant), MeantStep(r, n - 1, meant));
    }
  }

  lemma {:induction false} StepCountsAsMeantIff(r: Routine, n: nat, now: Tag, meant: Tag)
    requires n < |r.body| && now.number == meant.number
    ensures StepLog(r, n, now) == MeantStep(r, n, meant) <==> StepOrderly(r, n, now.category, meant.category)
    decreases r, n, 0
  {
    TagIsFinal(r, n, now);
    var at := TagAt(r, n, now);
    match r.body[n]
    case Operation(cell) => assert [Entry(at, cell)][0] == Entry(at, cell);
    case Call(callee) => CountsAsMeantIff(callee, Given(r, now, at), Given(r, meant, meant));
    case Bare(callee) => CountsAsMeantIff(callee, at, MeantOwn(r, n, meant));
  }

  /** Entered under another function's bits, a routine counts as meant only if it counts nothing. */
  lemma OtherFunctionIff(r: Routine, now: Tag, meant: Tag)
    requires now.number != meant.number
    ensures Log(r, now) == Meant(r, meant) <==> Operations(r) == 0
  {
    EveryOperationCounts(r, now, meant);
    RoutinesKeepFunction(r, now);
    MeantInFunction(r, meant);
    if Operations(r) > 0 {
      assert Log(r, now)[0].tag.number == now.number && Meant(r, meant)[0].tag.number == meant.number;
    }
  }

  lemma {:induction false} MeantInFunction(r: Routine, meant: Tag)
    ensures AllInFunction(Meant(r, meant), meant.number)
    decreases r, |r.body| + 1
  {
    StepsMeantInFunction(r, |r.body|, meant);
  }

  lemma {:induction false} StepsMeantInFunction(r: Routine, n: nat, meant: Tag)
    requires n <= |r.body|
    ensures AllInFunction(MeantUpTo(r, n, meant), meant.number)
    decreases r, n
  {
    if n > 0 {
      StepsMeantInFunction(r, n - 1, meant);
      match r.body[n - 1]
      case Operation(_) =>
      case Call(callee) => MeantInFunction(callee, Given(r, meant, meant));
      case Bare(callee) => MeantInFunction(callee, MeantOwn(r, n - 1, meant));
    }
  }

  // ---------- Drop helpers

  ghost predicate NoneBare(body: seq<Step>) {
    forall i :: 0 <= i < |body| ==> !body[i].Bare?
  }

  /** The first operation counts under the caller's category c, every later one, which frees a
      child, under the helper's cascade. A call before it has to leave just that. */
  predicate OperationPlaced(parent: string, body: seq<Step>, n: nat, c: Category)
    requires n < |body|
  {
    var k, wanted := LastCall(body, n), if Operated(body, n) then Cascade(parent) else c;
    if k < 0 then c == wanted else LeftBy(body[k].callee, Cascade(parent)) == wanted
  }

  predicate DropStepPlaced(parent: string, body: seq<Step>, n: nat, c: Category)
    requires n < |body|
  {
    if body[n].Operation? then OperationPlaced(parent, body, n, c)
    else Orderly(body[n].callee, Cascade(parent), Cascade(parent))
  }

  /** A drop helper that repeats its operation, as the walk down a boxed union's chain does,
      counts as meant if and only if everything it calls is orderly under its cascade and a call
      precedes each later operation, the last of them one that leaves that cascade. */
  lemma DropCountsAsMeantIff(parent: string, body: seq<Step>, tag: Tag)
    requires NoneBare(body)
    ensures Log(Drop(parent, body), tag) == Meant(Drop(parent, body), tag) <==>
              forall n :: 0 <= n < |body| ==> DropStepPlaced(parent, body, n, tag.category)
  {
    var r, c := Drop(parent, body), tag.category;
    CountsAsMeantIff(r, tag, tag);
    OrderlyMeans(r, |body|, c, c);
    forall n | 0 <= n < |body|
      ensures OrderlyAt(r, n, c, c) <==> DropStepPlaced(parent, body, n, c)
    {
    }
  }

  /** Helpers whose own operation, if any, runs first and once, with only rewritten calls
      after it. Records and lists are dropped by such helpers. */
  predicate OperationFirst(r: Routine) {
    && (r.Other? ==> forall n :: 0 <= n < |r.body| ==> r.body[n].Operation?)
    && (!r.Other? ==> forall n :: 0 <= n < |r.body| ==>
         if r.Drop? && n == 0 then r.body[n].Operation? else r.body[n].Call? && OperationFirst(r.body[n].callee))
  }

  /** They count as meant under every tag, whatever earlier siblings left in the shared one. */
  lemma {:induction false} OperationFirstIsOrderly(r: Routine, c: Category)
    requires OperationFirst(r)
    ensures Orderly(r, c, c)
    decreases r
  {
    OrderlyMeans(r, |r.body|, c, c);
    forall n | 0 <= n < |r.body|
      ensures OrderlyAt(r, n, c, c)
    {
      if r.Other? || n == 0 {
        assert LastCall(r.body, n) < 0;
      }
      if r.body[n].Call? {
        OperationFirstIsOrderly(r.body[n].callee, Under(r, c));
      }
    }
  }

  /** Nodes of a boxed union freed in one walk with no other payload: every decrement counts
      under the caller's tag, though all but the first free children. With two nodes or more
      that is not what is meant, unless the caller's tag is the cascade already. */
  lemma ChainCountsUnderCaller(body: seq<Step>, tag: Tag, n: nat)
    requires n < |body| && forall i :: 0 <= i < |body| ==> body[i].Operation?
    ensures TagAt(Drop("union", body), n, tag) == tag
    ensures Log(Drop("union", body), tag) == Meant(Drop("union", body), tag) <==>
              |body| == 1 || tag.category == Cascade("union")
  {
    assert forall i :: 0 <= i < |body| ==> LastCall(body, i) < 0;
    TagIsFinal(Drop("union", body), n, tag);
    DropCountsAsMeantIff("union", body, tag);
    if |body| > 1 {
      assert body[0].Operation? && Operated(body, 1);
      assert DropStepPlaced("union", body, 1, tag.category) <==> tag.category == Cascade("union");
    }
  }

  /** A union node that holds a record that holds a list, followed by its child: the record
      leaves its own cascade behind, and the child's decrement counts as freed by the record. */
  lemma WrongParent(tag: Tag)
    ensures var list := Drop("list", [Operation(3)]);
            var record := Drop("record", [Operation(1), Call(list)]);
            Log(Drop("union", [Operation(5), Call(record), Operation(5)]), tag) ==
              [Entry(tag, 5),
               Entry(tag.(category := Cascade("union")), 1),
               Entry(tag.(category := Cascade("record")), 3),
               Entry(tag.(category := Cascade("record")), 5)]
  {
    var list := Drop("list", [Operation(3)]);
    var record := Drop("record", [Operation(1), Call(list)]);
    var union := Drop("union", [Operation(5), Call(record), Operation(5)]);
    var inUnion, inRecord := tag.(category := Cascade("union")), tag.(category := Cascade("record"));
    assert TagAt(list, 0, inRecord) == inRecord && TagAt(list, 1, inRecord) == inRecord;
    assert LogUpTo(list, 0, inRecord) == [] && StepLog(list, 0, inRecord) == [Entry(inRecord, 3)];
    assert Log(list, inRecord) == [Entry(inRecord, 3)];
    assert TagAt(record, 1, inUnion) == inUnion && TagAt(record, 2, inUnion) == inRecord;
    assert LogUpTo(record, 1, inUnion) == [Entry(inUnion, 1)];
    assert StepLog(record, 1, inUnion) == [Entry(inRecord, 3)];
    assert LogUpTo(record, 2, inUnion) == [Entry(inUnion, 1), Entry(inRecord, 3)];
    assert TagAt(union, 1, tag) == tag && TagAt(union, 2, tag) == inRecord;
    assert LogUpTo(union, 1, tag) == [Entry(tag, 5)];
    assert LogUpTo(union, 2, tag) == [Entry(tag, 5), Entry(inUnion, 1), Entry(inRecord, 3)];
    assert StepLog(union, 2, tag) == [Entry(inRecord, 5)];
  }

  // ---------- Programs

  function TagAfter(code: Code, number: nat, tag: Tag): Tag {
    match code
    case Stop => tag
    case Help(category, helper, next) => TagAfter(next, number, Leaves(helper, Tag(number, category)))
    case Runtime(routine, next) => TagAfter(next, number, Leaves(routine, Tag(number, Untagged)))
    case Unseen(routine, next) => TagAfter(next, number, Leaves(routine, tag))
    case Enter(callee, inner, next) => TagAfter(next, number, TagAfter(inner, callee, tag))
  }

  function CodeLog(code: Code, number: nat, tag: Tag): seq<Entry> {
    match code
    case Stop => []
    case Help(category, helper, next) =>
      var given := Tag(number, category);
      Log(helper, given) + CodeLog(next, number, Leaves(helper, given))
    case Runtime(routine, next) =>
      var given := Tag(number, Untagged);
      Log(routine, given) + CodeLog(next, number, Leaves(routine, given))
    case Unseen(routine, next) => Log(routine, tag) + CodeLog(next, number, Leaves(routine, tag))
    case Enter(callee, inner, next) =>
      CodeLog(inner, callee, tag) + CodeLog(next, number, TagAfter(inner, callee, tag))
  }

  /** Every call of a runtime function is meant to count under the calling function's bits. */
  function MeantCode(code: Code, number: nat): seq<Entry> {
    match code
    case Stop => []
    case Help(category, helper, next) => Meant(helper, Tag(number, category)) + MeantCode(next, number)
    case Runtime(routine, next) => Meant(routine, Tag(number, Untagged)) + MeantCode(next, number)
    case Unseen(routine, next) => Meant(routine, Tag(number, Untagged)) + MeantCode(next, number)
    case Enter(callee, inner, next) => MeantCode(inner, callee) + MeantCode(next, number)
  }

  /** The user function whose tagged call ran last, or `before` if the code makes none. */
  function LastTagged(code: Code, number: nat, before: nat): nat {
    match code
    case Stop => before
    case Help(_, _, next) => LastTagged(next, number, number)
    case Runtime(_, next) => LastTagged(next, number, number)
    case Unseen(_, next) => LastTagged(next, number, before)
    case Enter(callee, inner, next) => LastTagged(next, number, LastTagged(inner, callee, before))
  }

  /** The category that the last call of the code leaves, or c if it makes none. */
  function LastLeft(code: Code, c: Category): Category {
    match code
    case Stop => c
    case Help(category, helper, next) => LastLeft(next, LeftBy(helper, category))
    case Runtime(routine, next) => LastLeft(next, LeftBy(routine, Untagged))
    case Unseen(routine, next) => LastLeft(next, LeftBy(routine, c))
    case Enter(_, inner, next) => LastLeft(next, LastLeft(inner, c))
  }

  /** Function `number` starts this code when function `last` has made the last tagged call and c
      is left. Calls that set the tag only have to be orderly. A call that does not has to find
      its own function's bits and a category it is orderly under, or count nothing. */
  predicate CodeOrderly(code: Code, number: nat, last: nat, c: Category) {
    match code
    case Stop => true
    case Help(category, helper, next) =>
      Orderly(helper, category, category) && CodeOrderly(next, number, number, LeftBy(helper, category))
    case Runtime(routine, next) =>
      Orderly(routine, Untagged, Untagged) && CodeOrderly(next, number, number, LeftBy(routine, Untagged))
    case Unseen(routine, next) =>
      && (if last == number then Orderly(routine, c, Untagged) else Operations(routine) == 0)
      && CodeOrderly(next, number, last, LeftBy(routine, c))
    case Enter(callee, inner, next) =>
      && CodeOrderly(inner, callee, last, c)
      && CodeOrderly(next, number, LastTagged(inner, callee, last), LastLeft(inner, c))
  }

  lemma {:induction false} ProgramSizes(code: Code, number: nat, tag: Tag)
    ensures |CodeLog(code, number, tag)| == |MeantCode(code, number)|
    decreases code
  {
    match code
    case Stop =>
    case Help(category, helper, next) =>
      var given := Tag(number, category);
      EveryOperationCounts(helper, given, given);
      ProgramSizes(next, number, Leaves(helper, given));
    case Runtime(routine, next) =>
      var given := Tag(number, Untagged);
      EveryOperationCounts(routine, given, given);
      ProgramSizes(next, number, Leaves(routine, given));
    case Unseen(routine, next) =>
      EveryOperationCounts(routine, tag, Tag(number, Untagged));
      ProgramSizes(next, number, Leaves(routine, tag));
    case Enter(callee, inner, next) =>
      ProgramSizes(inner, callee, tag);
      ProgramSizes(next, number, TagAfter(inner, callee, tag));
  }

  /** The tag after a program's code is that of its last calls. */
  lemma {:induction false} TagAfterCode(code: Code, number: nat, tag: Tag)
    ensures TagAfter(code, number, tag) == Tag(LastTagged(code, number, tag.number), LastLeft(code, tag.category))
    decreases code
  {
    match code
    case Stop =>
    case Help(category, helper, next) =>
      LeavesIsLeft(helper, Tag(number, category));
      TagAfterCode(next, number, Leaves(helper, Tag(number, category)));
    case Runtime(routine, next) =>
      LeavesIsLeft(routine, Tag(number, Untagged));
      TagAfterCode(next, number, Leaves(routine, Tag(number, Untagged)));
    case Unseen(routine, next) =>
      LeavesIsLeft(routine, tag);
      TagAfterCode(next, number, Leaves(routine, tag));
    case Enter(callee, inner, next) =>
      TagAfterCode(inner, callee, tag);
      TagAfterCode(next, number, TagAfter(inner, callee, tag));
  }

  /** A whole program counts every operation where it is meant to, however calls of user
      functions nest, if and only if its code is orderly. */
  lemma {:induction false} ProgramsCountAsMeantIff(code: Code, number: nat, tag: Tag)
    ensures CodeLog(code, number, tag) == MeantCode(code, number) <==> CodeOrderly(code, number, tag.number, tag.category)
    decreases code, 0
  {
    match code
    case Stop =>
    case Help(category, helper, next) =>
      RoutineThenProgram(helper, Tag(number, category), Tag(number, category), next, number);
    case Runtime(routine, next) =>
      RoutineThenProgram(routine, Tag(number, Untagged), Tag(number, Untagged), next, number);
    case Unseen(routine, next) =>
      RoutineThenProgram(routine, tag, Tag(number, Untagged), next, number);
    case Enter(callee, inner, next) =>
      var after := TagAfter(inner, callee, tag);
      TagAfterCode(inner, callee, tag);
      ProgramsCountAsMeantIff(inner, callee, tag);
      ProgramsCountAsMeantIff(next, number, after);
      ProgramSizes(inner, callee, tag);
      SplitEqual(CodeLog(inner, callee, tag), CodeLog(next, number, after), MeantCode(inner, callee), MeantCode(next, number));
  }

  lemma {:induction false} RoutineThenProgram(r: Routine, now: Tag, meant: Tag, next: Code, number: nat)
    ensures Log(r, now) + CodeLog(next, number, Leaves(r, now)) == Meant(r, meant) + MeantCode(next, number) <==>
              && (if now.number == meant.number then Orderly(r, now.category, meant.category) else Operations(r) == 0)
              && CodeOrderly(next, number, now.number, LeftBy(r, now.category))
    decreases next, 1
  {
    if now.number == meant.number {
      CountsAsMeantIff(r, now, meant);
    } else {
      OtherFunctionIff(r, now, meant);
    }
    LeavesIsLeft(r, now);
    EveryOperationCounts(r, now, meant);
    ProgramsCountAsMeantIff(next, number, Leaves(r, now));
    SplitEqual(Log(r, now), CodeLog(next, number, Leaves(r, now)), Meant(r, meant), MeantCode(next, number));
  }

  /** Programs that run only helpers of that simple shape, each under a tag of its own, count
      as meant from every tag. */
  predicate Simple(code: Code) {
    match code
    case Stop => true
    case Help(_, helper, next) => OperationFirst(helper) && Simple(next)
    case Runtime(routine, next) => OperationFirst(routine) && Simple(next)
    case Unseen(routine, next) => Operations(routine) == 0 && Simple(next)
    case Enter(_, inner, next) => Simple(inner) && Simple(next)
  }

  lemma {:induction false} SimpleProgramsCountAsMeant(code: Code, number: nat, tag: Tag)
    requires Simple(code)
    ensures CodeLog(code, number, tag) == MeantCode(code, number)
    decreases code
  {
    match code
    case Stop =>
    case Help(category, helper, next) =>
      var given := Tag(number, category);
      OperationFirstIsOrderly(helper, category);
      CountsAsMeantIff(helper, given, given);
      SimpleProgramsCountAsMeant(next, number, Leaves(helper, given));
    case Runtime(routine, next) =>
      var given := Tag(number, Untagged);
      OperationFirstIsOrderly(routine, Untagged);
      CountsAsMeantIff(routine, given, given);
      SimpleProgramsCountAsMeant(next, number, Leaves(routine, given));
    case Unseen(routine, next) =>
      EveryOperationCounts(routine, tag, Tag(number, Untagged));
      SimpleProgramsCountAsMeant(next, number, Leaves(routine, tag));
    case Enter(callee, inner, next) =>
      SimpleProgramsCountAsMeant(inner, callee, tag);
      SimpleProgramsCountAsMeant(next, number, TagAfter(inner, callee, tag));
  }

  // ---------- Runtime calls that set no tag

  /** A runtime function that the rewriting does not recognise at the call counts under its
      caller if and only if the caller itself made the last tagged call, or it performs no
      operation at all. `before` is what the caller has executed. */
  lemma UnseenCountsUnderCallerIff(before: Code, routine: Routine, number: nat, tag: Tag)
    ensures AllInFunction(Log(routine, TagAfter(before, number, tag)), number) <==>
              LastTagged(before, number, tag.number) == number || Operations(routine) == 0
  {
    var now := TagAfter(before, number, tag);
    TagAfterCode(before, number, tag);
    RoutinesKeepFunction(routine, now);
    EveryOperationCounts(routine, now, now);
    if Operations(routine) > 0 {
      assert Log(routine, now)[0].tag.number == now.number;
    }
  }

  /** Function 3 calls function 5, which drops a record, and then lists a directory: the
      release of a listed name counts under function 5. */
  lemma ListingCountsUnderCallee(tag: Tag)
    ensures var listing := Other(RuntimeOther, [Bare(Other(RuntimeOther, [Call(Other(RuntimeOther, [Operation(7)]))]))]);
            var before := Enter(5, Help(Unmarked, Drop("record", [Operation(1)]), Stop), Stop);
            && Operations(listing) == 1
            && AllInFunction(Log(listing, TagAfter(before, 3, tag)), 5)
            && !AllInFunction(Log(listing, TagAfter(before, 3, tag)), 3)
  {
    var release := Other(RuntimeOther, [Operation(7)]);
    var releaseListed := Other(RuntimeOther, [Call(release)]);
    var listing := Other(RuntimeOther, [Bare(releaseListed)]);
    var inner := Help(Unmarked, Drop("record", [Operation(1)]), Stop);
    var before := Enter(5, inner, Stop);
    assert OperationsUpTo(release, 0) == 0 && Operations(release) == 1;
    assert OperationsUpTo(releaseListed, 0) == 0 && Operations(releaseListed) == 1;
    assert OperationsUpTo(listing, 0) == 0 && Operations(listing) == 1;
    assert LastTagged(inner, 5, tag.number) == 5;
    assert LastTagged(before, 3, tag.number) == 5;
    UnseenCountsUnderCallerIff(before, listing, 3, tag);
    TagAfterCode(before, 3, tag);
    RoutinesKeepFunction(listing, TagAfter(before, 3, tag));
  }

  // ---------- The generated C

  /** The instrumented program: one global tag, and a log of what each operation counted under. */
  class Instrumented {
    var tag: Tag
    var log: seq<Entry>

    constructor ()
      ensures tag == Tag(0, Untagged) && log == []
    {
      tag, log := Tag(0, Untagged), [];
    }

    /** A rewritten function body. A helper without an operation keeps the tag it was entered
        with in a local variable; the others replace the category bits. */
    method CallRoutine(r: Routine)
      modifies this
      ensures tag == Leaves(r, old(tag))
      ensures log == old(log) + Log(r, old(tag))
      decreases r
    {
      var saved := tag;
      for n := 0 to |r.body|
        invariant tag == TagAt(r, n, saved)
        invariant log == old(log) + LogUpTo(r, n, saved)
      {
        match r.body[n] {
          case Operation(cell) =>
            log := log + [Entry(tag, cell)];
          case Call(callee) =>
            match r {
              case Saving(_) => tag := saved;
              case Drop(parent, _) => tag := tag.(category := Cascade(parent));
              case Other(category, _) => tag := tag.(category := category);
            }
            CallRoutine(callee);
          case Bare(callee) =>
            CallRoutine(callee);
        }
      }
    }

    /** The body of user function `number`, whose rewritten calls set the whole tag. */
    method RunUser(code: Code, number: nat)
      modifies this
      ensures tag == TagAfter(code, number, old(tag))
      ensures log == old(log) + CodeLog(code, number, old(tag))
      decreases code
    {
      ghost var before := log;
      match code
      case Stop =>
      case Help(category, helper, next) =>
        tag := Tag(number, category);
        CallRoutine(helper);
        Associative(before, Log(helper, Tag(number, category)), CodeLog(next, number, tag));
        RunUser(next, number);
      case Runtime(routine, next) =>
        tag := Tag(number, Untagged);
        CallRoutine(routine);
        Associative(before, Log(routine, Tag(number, Untagged)), CodeLog(next, number, tag));
        RunUser(next, number);
      case Unseen(routine, next) =>
        CallRoutine(routine);
        Associative(before, Log(routine, old(tag)), CodeLog(next, number, tag));
        RunUser(next, number);
      case Enter(callee, inner, next) =>
        RunUser(inner, callee);
        Associative(before, CodeLog(inner, callee, old(tag)), CodeLog(next, number, tag));
        RunUser(next, number);
    }
  }
}
