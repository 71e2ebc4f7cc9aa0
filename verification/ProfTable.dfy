/** The open-addressing table of the copy profile: the C function `prof_hit` that
    blorp/scripts/attribution/instrument_copies.py puts into the instrumented program. */
module ProfTable {

  const SLOTS: nat := 0x1_0000
  const WORD: nat := 0x1_0000_0000_0000_0000

  datatype Key = Key(address: nat, kind: nat)

  /** `units` is the exact sum. The source adds in an unsigned 64-bit word, so what it holds,
      and reports, is this sum modulo 2^64. */
  datatype Total = Total(hits: nat, units: int)

  datatype Row = Row(key: Key, total: Total)

  datatype Hit = Hit(key: Key, units: int)

  type Slot = i: int | 0 <= i < SLOTS

  /** Where the probe for a key starts. Everything below holds for every such function. */
  type Hash = Key -> Slot

  /** The function the source uses. The kind is mixed into the low bits only, which the shift
      by 20 drops, so it does not matter here. */
  function Scramble(key: Key): Slot {
    (key.address * 0x9E37_79B9_7F4A_7C15) % WORD / 0x10_0000 % SLOTS
  }

  /** The slot `d` places after `home`, around the end of the table. */
  function Probe(home: nat, d: nat): (slot: nat)
    requires home < SLOTS && d < SLOTS
    ensures slot < SLOTS
  {
    if home + d < SLOTS then home + d else home + d - SLOTS
  }

  /** How many places after `home` a slot comes. */
  function Distance(home: nat, slot: nat): (d: nat)
    requires home < SLOTS && slot < SLOTS
    ensures d < SLOTS && Probe(home, d) == slot
  {
    if home <= slot then slot - home else slot - home + SLOTS
  }

  lemma NextProbe(home: nat, d: nat, goal: nat)
    requires home < SLOTS && goal < SLOTS && d <= Distance(home, goal) && Probe(home, d) != goal
    ensures d < Distance(home, goal)
    ensures (Probe(home, d) + 1) % SLOTS == Probe(home, d + 1)
  {
  }

  // ---------- What the table means

  function Bump(total: Total, units: int): Total {
    Total(total.hits + 1, total.units + units)
  }

  function Lookup(tally: map<Key, Total>, key: Key): Total {
    if key in tally then tally[key] else Total(0, 0)
  }

  function Counted(tally: map<Key, Total>, hit: Hit): map<Key, Total> {
    tally[hit.key := Bump(Lookup(tally, hit.key), hit.units)]
  }

  function Tally(calls: seq<Hit>): map<Key, Total> {
    if calls == [] then map[]
    else
      Counted(Tally(calls[..|calls| - 1]), calls[|calls| - 1])
  }

  function KeysOf(calls: seq<Hit>): set<Key> {
    set i | 0 <= i < |calls| :: calls[i].key
  }

  function HitsOf(calls: seq<Hit>, key: Key): nat {
    if calls == [] then 0
    else HitsOf(calls[..|calls| - 1], key) + if calls[|calls| - 1].key == key then 1 else 0
  }

  function UnitsOf(calls: seq<Hit>, key: Key): int {
    if calls == [] then 0
    else
      var front, last := UnitsOf(calls[..|calls| - 1], key), calls[|calls| - 1];
      if last.key == key then front + last.units else front
  }

  /** The tally has exactly the keys that were hit, each with its number of hits and the sum
      of its units. */
  lemma {:induction false} TallyMeaning(calls: seq<Hit>)
    ensures Tally(calls).Keys == KeysOf(calls)
    ensures forall key :: key in Tally(calls) ==>
              && Tally(calls)[key].hits == HitsOf(calls, key) <= |calls|
              && Tally(calls)[key].units == UnitsOf(calls, key)
  {
    if calls != [] {
      var front, hit := calls[..|calls| - 1], calls[|calls| - 1];
      TallyMeaning(front);
      assert KeysOf(calls) == KeysOf(front) + {hit.key};
      if hit.key !in Tally(front) {
        NeverHit(front, hit.key);
      }
      assert Lookup(Tally(front), hit.key) == Total(HitsOf(front, hit.key), UnitsOf(front, hit.key));
    }
  }

  lemma {:induction false} NeverHit(calls: seq<Hit>, key: Key)
    requires key !in KeysOf(calls)
    ensures HitsOf(calls, key) == 0 && UnitsOf(calls, key) == 0
  {
    if calls != [] {
      var front := calls[..|calls| - 1];
      assert calls[|calls| - 1].key in KeysOf(calls);
      assert KeysOf(front) <= KeysOf(calls);
      NeverHit(front, key);
    }
  }

  // ---------- The table

  predicate Used(rows: seq<Row>, slot: nat)
    requires slot < |rows|
  {
    rows[slot].total.hits > 0
  }

  /** No key is in two rows. */
  ghost predicate NoDuplicates(rows: seq<Row>) {
    forall i, j :: 0 <= i < j < |rows| && Used(rows, i) && Used(rows, j) ==> rows[i].key != rows[j].key
  }

  /** From a key's home to the row it is in, no slot is free. */
  ghost predicate Chained(home: Hash, rows: seq<Row>, i: nat)
    requires |rows| == SLOTS && i < SLOTS
  {
    forall d: nat :: d < Distance(home(rows[i].key), i) ==> Used(rows, Probe(home(rows[i].key), d))
  }

  ghost predicate UnbrokenChains(home: Hash, rows: seq<Row>)
    requires |rows| == SLOTS
  {
    forall i :: 0 <= i < SLOTS && Used(rows, i) ==> Chained(home, rows, i)
  }

  /** The rows in use are exactly the entries of the tally. */
  ghost predicate Represents(rows: seq<Row>, tally: map<Key, Total>) {
    && (forall i :: 0 <= i < |rows| && !Used(rows, i) ==> rows[i].total == Total(0, 0))
    && (forall i :: 0 <= i < |rows| && Used(rows, i) ==> rows[i].key in tally && tally[rows[i].key] == rows[i].total)
    && (forall key :: key in tally ==> exists i :: 0 <= i < |rows| && Used(rows, i) && rows[i].key == key)
  }

  ghost predicate Good(home: Hash, rows: seq<Row>, tally: map<Key, Total>) {
    |rows| == SLOTS && NoDuplicates(rows) && UnbrokenChains(home, rows) && Represents(rows, tally)
  }

  /** A probe for `key` ends at a slot that is free or already has the key. */
  ghost predicate Ends(rows: seq<Row>, key: Key, slot: nat)
    requires slot < |rows|
  {
    !Used(rows, slot) || rows[slot].key == key
  }

  lemma {:induction false} DistinctFit(keys: seq<Key>, all: set<Key>)
    requires forall i, j :: 0 <= i < j < |keys| ==> keys[i] != keys[j]
    requires forall i :: 0 <= i < |keys| ==> keys[i] in all
    ensures |keys| <= |all|
  {
    if keys != [] {
      DistinctFit(keys[1..], all - {keys[0]});
    }
  }

  /** While fewer keys than slots are in use, a slot is free. */
  lemma SomeSlotFree(rows: seq<Row>, tally: map<Key, Total>)
    requires |rows| == SLOTS && NoDuplicates(rows) && Represents(rows, tally) && |tally| < SLOTS
    ensures exists i :: 0 <= i < SLOTS && !Used(rows, i)
  {
    if forall i :: 0 <= i < SLOTS ==> Used(rows, i) {
      var keys := seq(SLOTS, i requires 0 <= i < SLOTS => rows[i].key);
      DistinctFit(keys, tally.Keys);
      assert false;
    }
  }

  /** Exactly when a probe ends: the key is there already, or a slot is free for it. With a
      full table and a new key the source's loop has no way out. */
  lemma ProbeEndsIff(rows: seq<Row>, tally: map<Key, Total>, key: Key)
    requires |rows| == SLOTS && NoDuplicates(rows) && Represents(rows, tally)
    ensures (exists slot :: 0 <= slot < SLOTS && Ends(rows, key, slot)) <==> key in tally || |tally| < SLOTS
  {
    if |tally| < SLOTS {
      SomeSlotFree(rows, tally);
      var i :| 0 <= i < SLOTS && !Used(rows, i);
      assert Ends(rows, key, i);
    } else if key in tally {
      var i :| 0 <= i < SLOTS && Used(rows, i) && rows[i].key == key;
      assert Ends(rows, key, i);
    } else if slot :| 0 <= slot < SLOTS && !Used(rows, slot) {
      FreeSlotMeansRoom(rows, tally, slot);
      assert false;
    }
  }

  lemma FreeSlotMeansRoom(rows: seq<Row>, tally: map<Key, Total>, slot: nat)
    requires Represents(rows, tally) && slot < |rows| && !Used(rows, slot)
    ensures |tally| < |rows|
  {
    KeysFit(rows, tally, tally.Keys, Slots(|rows|) - {slot});
  }

  ghost function FindRow(rows: seq<Row>, tally: map<Key, Total>, key: Key): (i: nat)
    requires Represents(rows, tally) && key in tally
    ensures i < |rows| && Used(rows, i) && rows[i].key == key
  {
    var i :| 0 <= i < |rows| && Used(rows, i) && rows[i].key == key;
    i
  }

  ghost function Slots(n: nat): (s: set<int>)
    ensures |s| == n
    ensures forall i :: i in s <==> 0 <= i < n
  {
    if n == 0 then {} else Slots(n - 1) + {n - 1}
  }

  lemma {:induction false} KeysFit(rows: seq<Row>, tally: map<Key, Total>, keys: set<Key>, slots: set<int>)
    requires Represents(rows, tally) && keys <= tally.Keys
    requires forall key :: key in keys ==> FindRow(rows, tally, key) in slots
    ensures |keys| <= |slots|
    decreases keys
  {
    if keys != {} {
      var key :| key in keys;
      KeysFit(rows, tally, keys - {key}, slots - {FindRow(rows, tally, key)});
    }
  }

  lemma PresentKeyComesFirst(home: Hash, rows: seq<Row>, tally: map<Key, Total>, key: Key, d: nat)
    requires Good(home, rows, tally) && d < SLOTS && key in tally
    requires !Used(rows, Probe(home(key), d))
    ensures exists e: nat :: e < d && Ends(rows, key, Probe(home(key), e))
  {
    var i := FindRow(rows, tally, key);
    assert Chained(home, rows, i);
    assert Ends(rows, key, Probe(home(key), Distance(home(key), i)));
  }

  /** Where a probe for `key` first meets a free slot, the key is nowhere in the table. */
  lemma FreeSlotMeansAbsent(home: Hash, rows: seq<Row>, tally: map<Key, Total>, key: Key, d: nat)
    requires Good(home, rows, tally) && d < SLOTS
    requires !Used(rows, Probe(home(key), d))
    requires forall e: nat :: e < d ==> !Ends(rows, key, Probe(home(key), e))
    ensures key !in tally
  {
    if key in tally {
      PresentKeyComesFirst(home, rows, tally, key, d);
      assert false;
    }
  }

  lemma CountKeepsChains(home: Hash, rows: seq<Row>, key: Key, d: nat, total: Total)
    requires |rows| == SLOTS && UnbrokenChains(home, rows) && d < SLOTS && total.hits > 0
    requires Ends(rows, key, Probe(home(key), d))
    requires forall e: nat :: e < d ==> !Ends(rows, key, Probe(home(key), e))
    ensures UnbrokenChains(home, rows[Probe(home(key), d) := Row(key, total)])
  {
    var slot := Probe(home(key), d);
    var after := rows[slot := Row(key, total)];
    forall i | 0 <= i < SLOTS && Used(after, i)
      ensures Chained(home, after, i)
    {
      if i != slot {
        assert Chained(home, rows, i);
      } else {
        assert Distance(home(key), slot) == d;
      }
    }
  }

  lemma CountKeepsRows(rows: seq<Row>, tally: map<Key, Total>, hit: Hit, slot: nat)
    requires NoDuplicates(rows) && Represents(rows, tally) && slot < |rows|
    requires Ends(rows, hit.key, slot)
    requires !Used(rows, slot) ==> hit.key !in tally
    ensures var after := rows[slot := Row(hit.key, Bump(rows[slot].total, hit.units))];
            NoDuplicates(after) && Represents(after, Counted(tally, hit))
  {
    var after := rows[slot := Row(hit.key, Bump(rows[slot].total, hit.units))];
    forall key | key in Counted(tally, hit)
      ensures exists i :: 0 <= i < |after| && Used(after, i) && after[i].key == key
    {
      if key == hit.key {
        assert Used(after, slot);
      } else {
        var i := FindRow(rows, tally, key);
        assert after[i] == rows[i];
      }
    }
  }

  /** Counting into the row where the probe ended keeps the table good. */
  lemma CountKeepsGood(home: Hash, rows: seq<Row>, tally: map<Key, Total>, hit: Hit, d: nat)
    requires Good(home, rows, tally) && d < SLOTS
    requires Ends(rows, hit.key, Probe(home(hit.key), d))
    requires forall e: nat :: e < d ==> !Ends(rows, hit.key, Probe(home(hit.key), e))
    ensures var slot := Probe(home(hit.key), d);
            Good(home, rows[slot := Row(hit.key, Bump(rows[slot].total, hit.units))], Counted(tally, hit))
  {
    var slot := Probe(home(hit.key), d);
    if !Used(rows, slot) {
      FreeSlotMeansAbsent(home, rows, tally, hit.key, d);
    }
    CountKeepsChains(home, rows, hit.key, d, Bump(rows[slot].total, hit.units));
    CountKeepsRows(rows, tally, hit, slot);
  }

  class Table {
    const home: Hash
    const rows: array<Row>
    ghost var tally: map<Key, Total>

    ghost predicate Valid()
      reads this, rows
    {
      rows.Length == SLOTS && Good(home, rows[..], tally)
    }

    constructor (home: Hash)
      ensures Valid() && fresh(rows) && tally == map[]
    {
      this.home := home;
      rows := new Row[SLOTS](_ => Row(Key(0, 0), Total(0, 0)));
      tally := map[];
    }

    /** The probe loop ends, at the first slot that is free or has the key. */
    method FindSlot(key: Key) returns (slot: nat, ghost d: nat)
      requires rows.Length == SLOTS
      requires exists goal :: 0 <= goal < SLOTS && Ends(rows[..], key, goal)
      ensures d < SLOTS && slot == Probe(home(key), d)
      ensures Ends(rows[..], key, slot)
      ensures forall e: nat :: e < d ==> !Ends(rows[..], key, Probe(home(key), e))
    {
      ghost var before := rows[..];
      ghost var goal :| 0 <= goal < SLOTS && Ends(before, key, goal);
      var start := home(key);
      d := 0;
      slot := start;
      while rows[slot].total.hits != 0 && rows[slot].key != key
        invariant d <= Distance(start, goal) && slot == Probe(start, d)
        invariant forall e: nat :: e < d ==> !Ends(before, key, Probe(start, e))
        decreases SLOTS - d
      {
        assert !Ends(before, key, slot);
        NextProbe(start, d, goal);
        slot := (slot + 1) % SLOTS;
        d := d + 1;
      }
    }

    /** `prof_hit`: the one total that changes is this key's. */
    method Record(hit: Hit)
      requires Valid()
      requires hit.key in tally || |tally| < SLOTS
      requires hit.key in tally ==> tally[hit.key].hits + 1 < WORD
      modifies this, rows
      ensures Valid()
      ensures tally == Counted(old(tally), hit)
    {
      ghost var before := rows[..];
      ProbeEndsIff(before, tally, hit.key);
      var slot, d := FindSlot(hit.key);
      if rows[slot].total.hits == 0 {
        rows[slot] := Row(hit.key, rows[slot].total);
      }
      rows[slot] := Row(rows[slot].key, Bump(rows[slot].total, hit.units));
      ghost var row := Row(hit.key, Bump(before[slot].total, hit.units));
      assert rows[..] == before[slot := row];
      CountKeepsGood(home, before, tally, hit, d);
      tally := Counted(tally, hit);
    }
  }

  /** A whole profile: with at most as many distinct keys as slots, every probe ends and the
      table is the exact tally of the calls. */
  method Profile(calls: seq<Hit>) returns (table: Table)
    requires |KeysOf(calls)| <= SLOTS && |calls| < WORD
    ensures table.Valid()
    ensures table.tally == Tally(calls)
  {
    table := new Table(Scramble);
    for i := 0 to |calls|
      invariant table.Valid() && fresh(table) && fresh(table.rows)
      invariant table.tally == Tally(calls[..i])
    {
      TallyMeaning(calls[..i]);
      KeysGrow(calls, i);
      assert calls[..i + 1][..i] == calls[..i];
      table.Record(calls[i]);
    }
    assert calls[..|calls|] == calls;
  }

  lemma KeysGrow(calls: seq<Hit>, i: nat)
    requires i < |calls|
    ensures calls[i].key in KeysOf(calls[..i]) || |KeysOf(calls[..i])| < |KeysOf(calls)|
  {
    if calls[i].key !in KeysOf(calls[..i]) {
      assert KeysOf(calls[..i]) + {calls[i].key} <= KeysOf(calls);
      SubsetSize(KeysOf(calls[..i]) + {calls[i].key}, KeysOf(calls));
    }
  }

  lemma {:induction false} SubsetSize(a: set<Key>, b: set<Key>)
    requires a <= b
    ensures |a| <= |b|
  {
    if a != {} {
      var x :| x in a;
      SubsetSize(a - {x}, b - {x});
    }
  }
}
