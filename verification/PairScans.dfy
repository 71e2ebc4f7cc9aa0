/** The marker functions that blorp/scripts/attribution/patch_emit_markers.py adds to the
    compiler: why an acquisition exists, and which acquisitions and drops of one operation
    list form a pair that a move would replace. One scan looks forward from the acquisition,
    another backward from the drop. */
module PairScans {
  import opened Options

  datatype Borrow = ParameterBorrow | OwnerBorrow(owner: int) | PayloadBorrow

  datatype Definition = ReadRecordField | CallOrInvoke | Construct | OtherValue

  datatype Operation =
    | Acquire(owner: int, source: Borrow, value: int)
    | Drop(owner: int)
    | Define(id: int, definition: Definition)
    | Join
    | Loop

  datatype Reason = Projection | ForCall | Stored | OtherDefinition | BeforeControl | BlockEnd

  // ---------- Reasons

  function ReasonBeforeDefinition(ops: seq<Operation>, index: nat): Reason
    decreases |ops| - index
  {
    if index >= |ops| then BlockEnd
    else
      match ops[index]
      case Acquire(_, _, _) => ReasonBeforeDefinition(ops, index + 1)
      case Drop(_) => ReasonBeforeDefinition(ops, index + 1)
      case Define(_, definition) =>
        (match definition
         case CallOrInvoke => ForCall
         case Construct => Stored
         case _ => OtherDefinition)
      case Join => BeforeControl
      case Loop => BeforeControl
  }

  function ReasonOf(ops: seq<Operation>, position: nat, borrowed: int): Reason
    requires position < |ops|
  {
    if position > 0 && ops[position - 1] == Define(borrowed, ReadRecordField) then Projection
    else ReasonBeforeDefinition(ops, position + 1)
  }

  predicate SaysNothing(op: Operation) { op.Acquire? || op.Drop? }

  /** From `index` on, q is the first operation that is no acquisition and no drop, or the end. */
  ghost predicate Decides(ops: seq<Operation>, index: nat, q: nat) {
    && index <= q <= |ops| && (forall i :: index <= i < q ==> SaysNothing(ops[i]))
    && (q < |ops| ==> !SaysNothing(ops[q]))
  }

  lemma {:induction false} SomethingDecides(ops: seq<Operation>, index: nat) returns (q: nat)
    requires index <= |ops|
    ensures Decides(ops, index, q)
    decreases |ops| - index
  {
    if index < |ops| && SaysNothing(ops[index]) {
      q := SomethingDecides(ops, index + 1);
    } else {
      q := index;
    }
  }

  /** A value just read from a record is a projection. Otherwise the reason is what the next
      operation does that is no acquisition and no drop. */
  lemma ReasonMeans(ops: seq<Operation>, position: nat, borrowed: int, q: nat)
    requires position < |ops| && Decides(ops, position + 1, q)
    ensures var reason := ReasonOf(ops, position, borrowed);
            var projected := position > 0 && ops[position - 1] == Define(borrowed, ReadRecordField);
            var next := if q < |ops| then Some(ops[q]) else None;
            && (reason == Projection <==> projected)
            && (reason == ForCall <==> !projected && next.Some? && next.value.Define? && next.value.definition == CallOrInvoke)
            && (reason == Stored <==> !projected && next.Some? && next.value.Define? && next.value.definition == Construct)
            && (reason == BeforeControl <==> !projected && next.Some? && (next.value.Join? || next.value.Loop?))
            && (reason == BlockEnd <==> !projected && next.None?)
  {
    ReasonBeforeMeans(ops, position + 1, q);
  }

  lemma {:induction false} ReasonBeforeMeans(ops: seq<Operation>, index: nat, q: nat)
    requires Decides(ops, index, q)
    ensures ReasonBeforeDefinition(ops, index) == ReasonBeforeDefinition(ops, q)
    decreases q - index
  {
    if index < q {
      ReasonBeforeMeans(ops, index + 1, q);
    }
  }

  // ---------- The two scans

  function DropsOwnerAfter(ops: seq<Operation>, index: nat, owner: int, definitionsLeft: nat): bool
    decreases |ops| - index
  {
    if index >= |ops| then false
    else
      match ops[index]
      case Drop(dropped) =>
        if dropped == owner then true else DropsOwnerAfter(ops, index + 1, owner, definitionsLeft)
      case Acquire(_, _, _) => DropsOwnerAfter(ops, index + 1, owner, definitionsLeft)
      case Define(_, _) =>
        if definitionsLeft > 0 then DropsOwnerAfter(ops, index + 1, owner, definitionsLeft - 1) else false
      case _ => false
  }

  function PartnerReason(ops: seq<Operation>, index: int, owner: int, definitionsLeft: nat): Option<Reason>
    requires index < |ops|
    decreases index
  {
    if index < 0 then None
    else
      match ops[index]
      case Acquire(_, source, value) =>
        if source == OwnerBorrow(owner) then Some(ReasonOf(ops, index, value))
        else PartnerReason(ops, index - 1, owner, definitionsLeft)
      case Drop(_) => PartnerReason(ops, index - 1, owner, definitionsLeft)
      case Define(_, _) =>
        if definitionsLeft > 0 then PartnerReason(ops, index - 1, owner, definitionsLeft - 1) else None
      case _ => None
  }

  /** The acquisition at `a` is marked `pair`. */
  predicate MarkedPair(ops: seq<Operation>, a: nat) {
    && a < |ops| && ops[a].Acquire?
    && ops[a].source.OwnerBorrow?
    && DropsOwnerAfter(ops, a + 1, ops[a].source.owner, 1)
  }

  /** The partner written in the marker of the drop at `d`. */
  function Partner(ops: seq<Operation>, d: nat): Option<Reason>
    requires d < |ops| && ops[d].Drop?
  {
    PartnerReason(ops, d - 1, ops[d].owner, 1)
  }

  // ---------- What a pair is

  predicate TakesFrom(op: Operation, owner: int) {
    op.Acquire? && op.source == OwnerBorrow(owner)
  }

  /** Only acquisitions, drops and definitions from `lo` up to `hi`. */
  predicate Straight(ops: seq<Operation>, lo: nat, hi: nat)
    requires hi <= |ops|
  {
    forall i :: lo <= i < hi ==> !ops[i].Join? && !ops[i].Loop?
  }

  function Definitions(ops: seq<Operation>, lo: nat, hi: nat): nat
    requires hi <= |ops|
    decreases hi - lo
  {
    if lo >= hi then 0 else Definitions(ops, lo, hi - 1) + if ops[hi - 1].Define? then 1 else 0
  }

  /** At most one definition, and no control, from `lo` up to `hi`. */
  predicate Near(ops: seq<Operation>, lo: nat, hi: nat, definitions: nat)
    requires hi <= |ops|
  {
    Straight(ops, lo, hi) && Definitions(ops, lo, hi) <= definitions
  }

  /** An acquisition from an owner and a drop of it with little between them. */
  predicate IsPair(ops: seq<Operation>, a: nat, d: nat) {
    a < d < |ops| && ops[d].Drop? && TakesFrom(ops[a], ops[d].owner) && Near(ops, a + 1, d, 1)
  }

  lemma {:induction false} DefinitionsSplit(ops: seq<Operation>, lo: nat, mid: nat, hi: nat)
    requires lo <= mid <= hi <= |ops|
    ensures Definitions(ops, lo, hi) == Definitions(ops, lo, mid) + Definitions(ops, mid, hi)
    decreases hi
  {
    if mid < hi {
      DefinitionsSplit(ops, lo, mid, hi - 1);
    }
  }

  // ---------- The forward scan finds exactly the drops that are near

  lemma {:induction false} ForwardFinds(ops: seq<Operation>, i: nat, owner: int, left: nat, d: nat)
    requires i <= d < |ops| && ops[d] == Drop(owner) && Near(ops, i, d, left)
    ensures DropsOwnerAfter(ops, i, owner, left)
    decreases d - i
  {
    if i < d {
      DefinitionsSplit(ops, i, i + 1, d);
      assert Definitions(ops, i, i + 1) == if ops[i].Define? then 1 else 0;
      if ops[i] != Drop(owner) {
        ForwardFinds(ops, i + 1, owner, if ops[i].Define? then left - 1 else left, d);
      }
    }
  }

  /** The drop at which the forward scan stops. */
  lemma {:induction false} ForwardStopsAt(ops: seq<Operation>, i: nat, owner: int, left: nat) returns (d: nat)
    requires DropsOwnerAfter(ops, i, owner, left)
    ensures i <= d < |ops| && ops[d] == Drop(owner) && Near(ops, i, d, left)
    ensures forall k :: i <= k < d ==> ops[k] != Drop(owner)
    decreases |ops| - i
  {
    if ops[i] == Drop(owner) {
      d := i;
    } else {
      d := ForwardStopsAt(ops, i + 1, owner, if ops[i].Define? then left - 1 else left);
      DefinitionsSplit(ops, i, i + 1, d);
      assert Definitions(ops, i, i + 1) == if ops[i].Define? then 1 else 0;
    }
  }

  /** An acquisition is marked `pair` exactly when it is one. */
  lemma PairMarkIsExact(ops: seq<Operation>, a: nat)
    ensures MarkedPair(ops, a) <==> exists d :: IsPair(ops, a, d)
  {
    if MarkedPair(ops, a) {
      var d := ForwardStopsAt(ops, a + 1, ops[a].source.owner, 1);
      assert IsPair(ops, a, d);
    }
    if d: nat :| IsPair(ops, a, d) {
      ForwardFinds(ops, a + 1, ops[d].owner, 1, d);
    }
  }

  // ---------- The backward scan finds the nearest acquisition

  /** The acquisition that the backward scan from `index` stops at. */
  ghost predicate NearestBelow(ops: seq<Operation>, a: nat, index: int, owner: int) {
    && a <= index < |ops|
    && TakesFrom(ops[a], owner)
    && forall k :: a < k <= index ==> !TakesFrom(ops[k], owner)
  }

  lemma {:induction false} BackwardStopsAt(ops: seq<Operation>, index: int, owner: int, left: nat) returns (a: nat)
    requires index < |ops| && PartnerReason(ops, index, owner, left).Some?
    ensures NearestBelow(ops, a, index, owner) && Near(ops, a + 1, index + 1, left)
    ensures PartnerReason(ops, index, owner, left) == Some(ReasonOf(ops, a, ops[a].value))
    decreases index
  {
    if TakesFrom(ops[index], owner) {
      a := index;
    } else {
      a := BackwardStopsAt(ops, index - 1, owner, if ops[index].Define? then left - 1 else left);
    }
  }

  lemma {:induction false} BackwardFinds(ops: seq<Operation>, index: int, owner: int, left: nat, a: nat)
    requires a <= index < |ops| && TakesFrom(ops[a], owner) && Near(ops, a + 1, index + 1, left)
    ensures PartnerReason(ops, index, owner, left).Some?
    decreases index
  {
    if !TakesFrom(ops[index], owner) {
      BackwardFinds(ops, index - 1, owner, if ops[index].Define? then left - 1 else left, a);
    }
  }

  // ---------- The scans agree

  /** A drop with a partner names the reason of an acquisition that is itself marked `pair`,
      the nearest one before it. */
  lemma PartnerIsMarked(ops: seq<Operation>, d: nat) returns (a: nat)
    requires d < |ops| && ops[d].Drop? && Partner(ops, d).Some?
    ensures IsPair(ops, a, d) && MarkedPair(ops, a)
    ensures Partner(ops, d) == Some(ReasonOf(ops, a, ops[a].value))
    ensures NearestBelow(ops, a, d - 1, ops[d].owner)
  {
    a := BackwardStopsAt(ops, d - 1, ops[d].owner, 1);
    assert IsPair(ops, a, d);
    PairMarkIsExact(ops, a);
  }

  /** Both marks say the same thing of a list: an acquisition is marked exactly when some drop
      pairs with it, and a drop has a partner exactly when it pairs with some acquisition. */
  lemma ScansAgree(ops: seq<Operation>, d: nat)
    requires d < |ops| && ops[d].Drop?
    ensures Partner(ops, d).Some? <==> exists a :: IsPair(ops, a, d)
    ensures Partner(ops, d).Some? <==> exists a :: IsPair(ops, a, d) && MarkedPair(ops, a)
  {
    if Partner(ops, d).Some? {
      var a := PartnerIsMarked(ops, d);
      assert IsPair(ops, a, d) && MarkedPair(ops, a);
    }
    if a: nat :| IsPair(ops, a, d) {
      BackwardFinds(ops, d - 1, ops[d].owner, 1, a);
    }
  }

  /** The first drop reached from an acquisition marked `pair` has a partner. */
  lemma FirstDropHasPartner(ops: seq<Operation>, a: nat) returns (d: nat)
    requires MarkedPair(ops, a)
    ensures IsPair(ops, a, d) && Partner(ops, d).Some?
    ensures forall k :: a < k < d ==> ops[k] != ops[d]
  {
    d := ForwardStopsAt(ops, a + 1, ops[a].source.owner, 1);
    assert IsPair(ops, a, d);
    ScansAgree(ops, d);
  }

  // ---------- Counting pairs

  ghost predicate Partnered(ops: seq<Operation>, d: int) {
    0 <= d < |ops| && ops[d].Drop? && Partner(ops, d).Some?
  }

  /** The acquisition a partnered drop is paired with. */
  ghost function PartnerOf(ops: seq<Operation>, d: nat): (a: nat)
    requires Partnered(ops, d)
    ensures a < |ops| && MarkedPair(ops, a) && NearestBelow(ops, a, d - 1, ops[d].owner)
  {
    PartnerExists(ops, d);
    var a: nat :| a < |ops| && MarkedPair(ops, a) && NearestBelow(ops, a, d - 1, ops[d].owner);
    a
  }

  lemma PartnerExists(ops: seq<Operation>, d: nat)
    requires Partnered(ops, d)
    ensures exists a: nat :: a < |ops| && MarkedPair(ops, a) && NearestBelow(ops, a, d - 1, ops[d].owner)
  {
    var a := PartnerIsMarked(ops, d);
  }

  /** Exactly when two drops share their acquisition: they drop the same owner and nothing is
      acquired from it in between. */
  lemma SharedPartner(ops: seq<Operation>, d: nat, e: nat)
    requires d < e && Partnered(ops, d) && Partnered(ops, e)
    ensures PartnerOf(ops, d) == PartnerOf(ops, e) <==>
              && ops[d].owner == ops[e].owner
              && forall k :: d < k < e ==> !TakesFrom(ops[k], ops[d].owner)
  {
    var a, b := PartnerOf(ops, d), PartnerOf(ops, e);
    if ops[d].owner == ops[e].owner && (forall k :: d < k < e ==> !TakesFrom(ops[k], ops[d].owner)) {
      assert b < d;
    }
  }

  ghost predicate Paired(ops: seq<Operation>, d: nat) {
    exists a :: IsPair(ops, a, d)
  }

  /** Between two drops of an owner that both pair with an acquisition, something is acquired
      from it. In particular: no owner is dropped twice. */
  ghost predicate DropsSeparated(ops: seq<Operation>) {
    forall d, e :: 0 <= d < e < |ops| && Paired(ops, d) && Paired(ops, e) && ops[d].owner == ops[e].owner ==>
      exists k :: d < k < e && TakesFrom(ops[k], ops[d].owner)
  }

  /** The condition is exact: drops map one-to-one to their acquisitions if and only if it holds. */
  lemma PartnersInjectiveIff(ops: seq<Operation>)
    ensures DropsSeparated(ops) <==>
              forall d, e :: 0 <= d < e < |ops| && Partnered(ops, d) && Partnered(ops, e) ==>
                PartnerOf(ops, d) != PartnerOf(ops, e)
  {
    forall d: nat | d < |ops|
      ensures Partnered(ops, d) <==> Paired(ops, d)
    {
      PartneredIsPaired(ops, d);
    }
    forall d, e | 0 <= d < e < |ops| && Partnered(ops, d) && Partnered(ops, e)
      ensures PartnerOf(ops, d) == PartnerOf(ops, e) <==>
                && ops[d].owner == ops[e].owner
                && forall k :: d < k < e ==> !TakesFrom(ops[k], ops[d].owner)
    {
      SharedPartner(ops, d, e);
    }
  }

  lemma PartneredIsPaired(ops: seq<Operation>, d: nat)
    ensures Partnered(ops, d) <==> Paired(ops, d)
  {
    if d < |ops| && ops[d].Drop? {
      ScansAgree(ops, d);
    }
  }

  ghost function PartneredDrops(ops: seq<Operation>): set<nat> {
    set d: nat | d < |ops| && Partnered(ops, d)
  }

  ghost function PairAcquisitions(ops: seq<Operation>): set<nat> {
    set a: nat | a < |ops| && MarkedPair(ops, a)
  }

  lemma {:induction false} InjectionFits(ops: seq<Operation>, drops: set<nat>, acquisitions: set<nat>)
    requires forall d :: d in drops ==> Partnered(ops, d) && PartnerOf(ops, d) in acquisitions
    requires forall d, e :: d in drops && e in drops && d < e ==> PartnerOf(ops, d) != PartnerOf(ops, e)
    ensures |drops| <= |acquisitions|
    decreases drops
  {
    if drops != {} {
      var d :| d in drops;
      InjectionFits(ops, drops - {d}, acquisitions - {PartnerOf(ops, d)});
    }
  }

  /** Then partnered drops never outnumber the acquisitions marked `pair`. */
  lemma PartneredDropsBounded(ops: seq<Operation>)
    requires DropsSeparated(ops)
    ensures |PartneredDrops(ops)| <= |PairAcquisitions(ops)|
  {
    PartnersInjectiveIff(ops);
    InjectionFits(ops, PartneredDrops(ops), PairAcquisitions(ops));
  }

  // ---------- Exactly when drops outnumber acquisitions

  /** A pair with nothing acquired from the owner in between. */
  ghost predicate Claims(ops: seq<Operation>, a: nat, d: nat) {
    IsPair(ops, a, d) && forall k :: a < k < d ==> !TakesFrom(ops[k], ops[d].owner)
  }

  /** A drop claims the acquisition it is partnered with, and no other. */
  lemma ClaimIsPartner(ops: seq<Operation>, a: nat, d: nat)
    ensures Claims(ops, a, d) <==> Partnered(ops, d) && PartnerOf(ops, d) == a
  {
    PartneredIsPaired(ops, d);
    if Partnered(ops, d) {
      PartnerPairs(ops, d);
    }
  }

  lemma PartnerPairs(ops: seq<Operation>, d: nat)
    requires Partnered(ops, d)
    ensures Claims(ops, PartnerOf(ops, d), d)
  {
    var a := PartnerIsMarked(ops, d);
    assert a == PartnerOf(ops, d);
  }

  /** Drops that claim an acquisition which an earlier drop has claimed. */
  ghost predicate Repeated(ops: seq<Operation>, e: nat) {
    exists a: nat, d: nat :: d < e && Claims(ops, a, d) && Claims(ops, a, e)
  }

  /** Acquisitions that pair with some drop and that no drop claims. */
  ghost predicate Passed(ops: seq<Operation>, a: nat) {
    (exists d :: IsPair(ops, a, d)) && forall d :: !Claims(ops, a, d)
  }

  ghost function RepeatedDrops(ops: seq<Operation>): set<nat> {
    set e: nat | e < |ops| && Repeated(ops, e)
  }

  ghost function PassedAcquisitions(ops: seq<Operation>): set<nat> {
    set a: nat | a < |ops| && Passed(ops, a)
  }

  ghost predicate Covers(ops: seq<Operation>, drops: set<nat>, a: nat) {
    exists d :: d in drops && Partnered(ops, d) && PartnerOf(ops, d) == a
  }

  lemma {:induction false} CoverFits(ops: seq<Operation>, drops: set<nat>, acquisitions: set<nat>)
    requires forall a :: a in acquisitions ==> Covers(ops, drops, a)
    ensures |acquisitions| <= |drops|
    decreases drops
  {
    if drops != {} {
      var d :| d in drops;
      var fewer := drops - {d};
      var rest := if Partnered(ops, d) then acquisitions - {PartnerOf(ops, d)} else acquisitions;
      forall a | a in rest
        ensures Covers(ops, fewer, a)
      {
        var e :| e in drops && Partnered(ops, e) && PartnerOf(ops, e) == a;
        assert e in fewer;
      }
      CoverFits(ops, fewer, rest);
    }
  }

  lemma {:induction false} FirstClaim(ops: seq<Operation>, a: nat, d: nat) returns (first: nat)
    requires Claims(ops, a, d)
    ensures Claims(ops, a, first) && !Repeated(ops, first)
    decreases d
  {
    if e: nat :| e < d && Claims(ops, a, e) {
      first := FirstClaim(ops, a, e);
    } else {
      first := d;
      forall b: nat | Claims(ops, b, d)
        ensures b == a
      {
        ClaimIsPartner(ops, a, d);
        ClaimIsPartner(ops, b, d);
      }
    }
  }

  ghost function FirstDrops(ops: seq<Operation>): set<nat> {
    PartneredDrops(ops) - RepeatedDrops(ops)
  }

  ghost function ClaimedAcquisitions(ops: seq<Operation>): set<nat> {
    PairAcquisitions(ops) - PassedAcquisitions(ops)
  }

  lemma FirstsFit(ops: seq<Operation>)
    ensures |FirstDrops(ops)| <= |ClaimedAcquisitions(ops)|
  {
    var firsts := FirstDrops(ops);
    forall d | d in firsts
      ensures PartnerOf(ops, d) in ClaimedAcquisitions(ops)
    {
      ClaimIsPartner(ops, PartnerOf(ops, d), d);
    }
    forall d, e | d in firsts && e in firsts && d < e
      ensures PartnerOf(ops, d) != PartnerOf(ops, e)
    {
      ClaimIsPartner(ops, PartnerOf(ops, d), d);
      ClaimIsPartner(ops, PartnerOf(ops, d), e);
    }
    InjectionFits(ops, firsts, ClaimedAcquisitions(ops));
  }

  lemma FirstsCover(ops: seq<Operation>)
    ensures |ClaimedAcquisitions(ops)| <= |FirstDrops(ops)|
  {
    forall a | a in ClaimedAcquisitions(ops)
      ensures Covers(ops, FirstDrops(ops), a)
    {
      PairMarkIsExact(ops, a);
      var d: nat :| Claims(ops, a, d);
      var first := FirstClaim(ops, a, d);
      ClaimIsPartner(ops, a, first);
      assert first in FirstDrops(ops);
    }
    CoverFits(ops, FirstDrops(ops), ClaimedAcquisitions(ops));
  }

  /** The books balance: every partnered drop is the first to claim its acquisition or repeats a
      claim, and every marked acquisition is claimed or passed over. */
  lemma DropsOutnumberIff(ops: seq<Operation>)
    ensures |PartneredDrops(ops)| + |PassedAcquisitions(ops)| == |PairAcquisitions(ops)| + |RepeatedDrops(ops)|
    ensures |PartneredDrops(ops)| > |PairAcquisitions(ops)| <==> |RepeatedDrops(ops)| > |PassedAcquisitions(ops)|
  {
    RepeatsArePartnered(ops);
    PassedAreMarked(ops);
    FirstsFit(ops);
    FirstsCover(ops);
    assert |PartneredDrops(ops)| == |FirstDrops(ops)| + |RepeatedDrops(ops)|;
    assert |PairAcquisitions(ops)| == |ClaimedAcquisitions(ops)| + |PassedAcquisitions(ops)|;
  }

  lemma RepeatsArePartnered(ops: seq<Operation>)
    ensures RepeatedDrops(ops) <= PartneredDrops(ops)
  {
    forall e | e in RepeatedDrops(ops)
      ensures e in PartneredDrops(ops)
    {
      var a: nat, d: nat :| d < e && Claims(ops, a, d) && Claims(ops, a, e);
      ClaimIsPartner(ops, a, e);
    }
  }

  lemma PassedAreMarked(ops: seq<Operation>)
    ensures PassedAcquisitions(ops) <= PairAcquisitions(ops)
  {
    forall a | a in PassedAcquisitions(ops)
      ensures a in PairAcquisitions(ops)
    {
      PairMarkIsExact(ops, a);
    }
  }

  /** An owner dropped twice counts one acquisition as two partners. */
  lemma DoubleDropOutnumbers()
    ensures var ops := [Acquire(1, OwnerBorrow(0), 7), Drop(0), Drop(0)];
            |PartneredDrops(ops)| == 2 && |PairAcquisitions(ops)| == 1
  {
    var ops := [Acquire(1, OwnerBorrow(0), 7), Drop(0), Drop(0)];
    assert IsPair(ops, 0, 1) && IsPair(ops, 0, 2);
    ScansAgree(ops, 1);
    ScansAgree(ops, 2);
    PairMarkIsExact(ops, 0);
    assert PartneredDrops(ops) == {1, 2};
    assert PairAcquisitions(ops) == {0};
  }
}
