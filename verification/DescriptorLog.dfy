/** The descriptor check of the filesystem fixtures
    (blorp/test/runtime/fixtures/fs_directory_test.c and fs_write_test.c): two nested loops
    over a log of calls, against a machine that reads the log once. */
module DescriptorLog {

  datatype Call = Open | Close | CloseDir | Other

  /** `descriptor` is what a closing call was given, `result` what the call returned. */
  datatype Event = Event(call: Call, descriptor: int, result: int)

  /** Which calls close: close alone in fs_write_test.c, close and closedir in
      fs_directory_test.c. */
  datatype Fixture = WriteTest | DirectoryTest

  predicate Opens(e: Event) { e.call.Open? && e.result >= 0 }

  predicate Closes(f: Fixture, e: Event) {
    e.call.Close? || (f.DirectoryTest? && e.call.CloseDir?)
  }

  // ---------- The one-pass machine

  /** Reads the log with the set of descriptors held: never reopens a held one, never closes
      an unheld one, ends holding none. */
  ghost predicate Accepts(f: Fixture, log: seq<Event>, held: set<int>)
    decreases |log|
  {
    if log == [] then held == {}
    else
      var e := log[0];
      if Opens(e) then e.result !in held && Accepts(f, log[1..], held + {e.result})
      else if Closes(f, e) then e.descriptor in held && Accepts(f, log[1..], held - {e.descriptor})
      else Accepts(f, log[1..], held)
  }

  // ---------- What the nested loops compute

  function OpenCount(log: seq<Event>): nat {
    if log == [] then 0 else (if Opens(log[0]) then 1 else 0) + OpenCount(log[1..])
  }

  function CloseCount(f: Fixture, log: seq<Event>): nat {
    if log == [] then 0 else (if Closes(f, log[0]) then 1 else 0) + CloseCount(f, log[1..])
  }

  /** The closes of `descriptor` before it is opened again. */
  function WindowCloses(f: Fixture, log: seq<Event>, descriptor: int): nat {
    if log == [] then 0
    else if log[0].call.Open? && log[0].result == descriptor then 0
    else (if Closes(f, log[0]) && log[0].descriptor == descriptor then 1 else 0)
         + WindowCloses(f, log[1..], descriptor)
  }

  ghost predicate EachOpenClosedOnce(f: Fixture, log: seq<Event>) {
    forall i :: 0 <= i < |log| && Opens(log[i]) ==> WindowCloses(f, log[i + 1..], log[i].result) == 1
  }

  /** What the fixture asserts of its log. */
  ghost predicate Checked(f: Fixture, log: seq<Event>) {
    EachOpenClosedOnce(f, log) && CloseCount(f, log) == OpenCount(log)
  }

  /** `expect_each_descriptor_closed_once`; a failed assertion is `false`. */
  method Check(f: Fixture, log: seq<Event>) returns (ok: bool)
    ensures ok <==> Checked(f, log)
  {
    var opens, closes := 0, 0;
    for index := 0 to |log|
      invariant opens + OpenCount(log[index..]) == OpenCount(log)
      invariant closes + CloseCount(f, log[index..]) == CloseCount(f, log)
      invariant forall i :: 0 <= i < index && Opens(log[i]) ==> WindowCloses(f, log[i + 1..], log[i].result) == 1
    {
      assert log[index..][1..] == log[index + 1..];
      if Closes(f, log[index]) {
        closes := closes + 1;
      }
      if !log[index].call.Open? || log[index].result < 0 {
        continue;
      }
      opens := opens + 1;
      var descriptor := log[index].result;
      var closed := CountWindow(f, log, index + 1, descriptor);
      if closed != 1 {
        return false;
      }
    }
    return closes == opens;
  }

  method CountWindow(f: Fixture, log: seq<Event>, start: nat, descriptor: int) returns (closed: nat)
    requires start <= |log|
    ensures closed == WindowCloses(f, log[start..], descriptor)
  {
    closed := 0;
    var later := start;
    while later < |log|
      invariant start <= later <= |log|
      invariant closed + WindowCloses(f, log[later..], descriptor) == WindowCloses(f, log[start..], descriptor)
    {
      assert log[later..][1..] == log[later + 1..];
      if log[later].call.Open? && log[later].result == descriptor {
        break;
      }
      if Closes(f, log[later]) && log[later].descriptor == descriptor {
        closed := closed + 1;
      }
      later := later + 1;
    }
  }

  // ---------- The two agree

  /** The check, in the middle of a log: the held descriptors still have a close coming. */
  ghost predicate CheckedWith(f: Fixture, log: seq<Event>, held: set<int>) {
    && EachOpenClosedOnce(f, log)
    && (forall d :: d in held ==> WindowCloses(f, log, d) == 1)
    && CloseCount(f, log) == OpenCount(log) + |held|
  }

  lemma EachOpenTail(f: Fixture, log: seq<Event>)
    requires log != []
    ensures EachOpenClosedOnce(f, log) <==>
              && EachOpenClosedOnce(f, log[1..])
              && (Opens(log[0]) ==> WindowCloses(f, log[1..], log[0].result) == 1)
  {
    var tail := log[1..];
    assert forall i :: 0 <= i < |tail| ==> tail[i] == log[i + 1] && tail[i + 1..] == log[i + 2..];
    if EachOpenClosedOnce(f, log) {
      assert log[0 + 1..] == tail;
    }
    if EachOpenClosedOnce(f, tail) && (Opens(log[0]) ==> WindowCloses(f, tail, log[0].result) == 1) {
      forall i | 0 <= i < |log| && Opens(log[i])
        ensures WindowCloses(f, log[i + 1..], log[i].result) == 1
      {
        if i > 0 {
          assert tail[i - 1] == log[i];
        }
      }
    }
  }

  lemma {:induction false} NothingHeldAtTheEnd(f: Fixture, log: seq<Event>, held: set<int>)
    requires log == []
    requires forall h :: h in held ==> WindowCloses(f, log, h) == 1
    ensures held == {}
  {
    forall h
      ensures h !in held
    {
      assert WindowCloses(f, log, h) == 0;
    }
  }

  /** Every held descriptor's close, and every opened one's, is a different close; a close of
      `d` that belongs to none of them comes on top. */
  lemma {:induction false} ClosesAddUp(f: Fixture, log: seq<Event>, held: set<int>, d: int)
    requires EachOpenClosedOnce(f, log)
    requires forall h :: h in held ==> WindowCloses(f, log, h) == 1
    ensures CloseCount(f, log) >= OpenCount(log) + |held| + if d in held then 0 else WindowCloses(f, log, d)
    decreases |log|
  {
    if log == [] {
      NothingHeldAtTheEnd(f, log, held);
    } else {
      var e, tail := log[0], log[1..];
      EachOpenTail(f, log);
      if Opens(e) {
        OpenedIsNotHeld(f, log, held);
        ClosesAddUp(f, tail, held + {e.result}, d);
      } else if Closes(f, e) && e.descriptor in held {
        assert WindowCloses(f, log, e.descriptor) == 1 + WindowCloses(f, tail, e.descriptor);
        ClosesAddUp(f, tail, held - {e.descriptor}, d);
      } else {
        ClosesAddUp(f, tail, held, d);
      }
    }
  }

  lemma OpenedIsNotHeld(f: Fixture, log: seq<Event>, held: set<int>)
    requires log != [] && Opens(log[0])
    requires forall h :: h in held ==> WindowCloses(f, log, h) == 1
    ensures log[0].result !in held
    ensures forall h :: h in held ==> WindowCloses(f, log[1..], h) == 1
  {
    assert WindowCloses(f, log, log[0].result) == 0;
  }

  lemma {:induction false} CheckedWithIsAccepts(f: Fixture, log: seq<Event>, held: set<int>)
    requires forall h :: h in held ==> h >= 0
    ensures CheckedWith(f, log, held) <==> Accepts(f, log, held)
    decreases |log|
  {
    if log == [] {
      assert forall h :: WindowCloses(f, log, h) == 0;
      assert EachOpenClosedOnce(f, log);
      assert CheckedWith(f, log, held) <==> held == {};
    } else {
      var e, tail := log[0], log[1..];
      if Opens(e) {
        OpenStep(f, log, held);
        CheckedWithIsAccepts(f, tail, held + {e.result});
      } else if Closes(f, e) {
        CloseStep(f, log, held);
        CheckedWithIsAccepts(f, tail, held - {e.descriptor});
      } else {
        OtherStep(f, log, held);
        CheckedWithIsAccepts(f, tail, held);
      }
    }
  }

  /** An open that failed and a call that neither opens nor closes change nothing. */
  lemma OtherStep(f: Fixture, log: seq<Event>, held: set<int>)
    requires log != [] && !Opens(log[0]) && !Closes(f, log[0])
    requires forall h :: h in held ==> h >= 0
    ensures CheckedWith(f, log, held) <==> CheckedWith(f, log[1..], held)
  {
    EachOpenTail(f, log);
    assert forall h :: h >= 0 ==> WindowCloses(f, log, h) == WindowCloses(f, log[1..], h);
  }

  lemma OpenStep(f: Fixture, log: seq<Event>, held: set<int>)
    requires log != [] && Opens(log[0])
    ensures CheckedWith(f, log, held) <==>
              log[0].result !in held && CheckedWith(f, log[1..], held + {log[0].result})
  {
    EachOpenTail(f, log);
    assert WindowCloses(f, log, log[0].result) == 0;
    assert forall d :: d != log[0].result ==> WindowCloses(f, log, d) == WindowCloses(f, log[1..], d);
  }

  lemma CloseStep(f: Fixture, log: seq<Event>, held: set<int>)
    requires log != [] && !Opens(log[0]) && Closes(f, log[0])
    ensures CheckedWith(f, log, held) <==>
              log[0].descriptor in held && CheckedWith(f, log[1..], held - {log[0].descriptor})
  {
    var d, tail := log[0].descriptor, log[1..];
    EachOpenTail(f, log);
    assert WindowCloses(f, log, d) == 1 + WindowCloses(f, tail, d);
    assert forall x :: x != d ==> WindowCloses(f, log, x) == WindowCloses(f, tail, x);
    if CheckedWith(f, log, held) && d !in held {
      ClosesAddUp(f, log, held, d);
      assert false;
    }
    if d in held && CheckedWith(f, tail, held - {d}) {
      ClosesAddUp(f, tail, held - {d}, d);
      assert WindowCloses(f, tail, d) == 0;
    }
  }

  /** For every log, the nested loops accept exactly what the one-pass machine accepts. */
  lemma CheckIsOnePass(f: Fixture, log: seq<Event>)
    ensures Checked(f, log) <==> Accepts(f, log, {})
  {
    CheckedWithIsAccepts(f, log, {});
  }

  /** Without the global count a close of something never opened would pass. */
  lemma CountIsNeeded(f: Fixture)
    ensures exists log :: EachOpenClosedOnce(f, log) && !Accepts(f, log, {})
  {
    var log := [Event(Close, 3, 0)];
    assert EachOpenClosedOnce(f, log) && !Accepts(f, log, {});
  }
}
