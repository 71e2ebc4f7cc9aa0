/** The counters of the instrumented program, the rows it writes and how the report adds them
    up again (blorp/scripts/attribution/instrument_rc.py and report.py). */
module RcCounters {
  import opened RcTags

  const CATEGORY_LIMIT: nat := 128
  const CELLS: nat := 10

  // ---------- Category numbers

  /** The numbering of category names in order of first use. */
  class Categories {
    var names: seq<string>

    ghost predicate Valid()
      reads this
    {
      && 0 < |names|
      && names[0] == "untagged"
      && forall i, j :: 0 <= i < j < |names| ==> names[i] != names[j]
    }

    constructor ()
      ensures Valid() && names == ["untagged"]
    {
      names := ["untagged"];
    }

    /** The number of `name`, or `ok == false` where the script stops with an error. Numbers
        given before keep their names, and a number fits in the category bits. */
    method Number(name: string) returns (ok: bool, index: nat)
      requires Valid() && |names| <= CATEGORY_LIMIT
      modifies this
      ensures Valid()
      ensures old(names) <= names <= old(names) + [name]
      ensures ok <==> name in old(names) || |old(names)| < CATEGORY_LIMIT
      ensures ok ==> |names| <= CATEGORY_LIMIT && index < |names| && names[index] == name
      ensures name in old(names) ==> names == old(names)
    {
      index := 0;
      if name !in names {
        names := names + [name];
        if |names| > CATEGORY_LIMIT {
          return false, 0;
        }
      }
      while names[index] != name
        invariant index < |names| && name !in names[..index]
        decreases |names| - index
      {
        index := index + 1;
      }
      return true, index;
    }
  }

  // ---------- Packed tags

  // Shifts and masks of the low seven bits, as arithmetic.

  function Pack(number: nat, category: nat): nat { number * CATEGORY_LIMIT + category }

  function FunctionBits(tag: nat): nat { tag / CATEGORY_LIMIT }

  function CategoryBits(tag: nat): nat { tag % CATEGORY_LIMIT }

  function WithCategory(tag: nat, category: nat): nat { FunctionBits(tag) * CATEGORY_LIMIT + category }

  /** A packed tag unpacks to both parts, replacing its category bits keeps the function bits,
      and for a function up to `limit` it indexes the allocated `(limit + 1) << 7` rows. */
  lemma PackedTags(number: nat, category: nat, other: nat, limit: nat)
    requires number <= limit && category < CATEGORY_LIMIT && other < CATEGORY_LIMIT
    ensures FunctionBits(Pack(number, category)) == number
    ensures CategoryBits(Pack(number, category)) == category
    ensures WithCategory(Pack(number, category), other) == Pack(number, other)
    ensures Pack(number, category) < (limit + 1) * CATEGORY_LIMIT
  {
  }

  // ---------- Counting

  /** One executed atomic operation: the packed tag at the time, and its kind and direction. */
  datatype Hit = Hit(tag: nat, cell: nat)

  ghost predicate InTable(log: seq<Hit>, tags: nat) {
    forall i :: 0 <= i < |log| ==> log[i].tag < tags && log[i].cell < CELLS
  }

  function TagCount(log: seq<Hit>, tag: nat, cell: nat): nat {
    if log == [] then 0
    else TagCount(log[..|log| - 1], tag, cell) + if log[|log| - 1] == Hit(tag, cell) then 1 else 0
  }

  function KindCount(log: seq<Hit>, cell: nat): nat {
    if log == [] then 0
    else KindCount(log[..|log| - 1], cell) + if log[|log| - 1].cell == cell then 1 else 0
  }

  function SumOverTags(log: seq<Hit>, tags: nat, cell: nat): nat {
    if tags == 0 then 0 else SumOverTags(log, tags - 1, cell) + TagCount(log, tags - 1, cell)
  }

  /** The two instrumented builds, fed the same operations. */
  method Count(log: seq<Hit>, tags: nat) returns (tagged: array2<nat>, kinds: array<nat>)
    requires InTable(log, tags)
    ensures tagged.Length0 == tags && tagged.Length1 == CELLS && kinds.Length == CELLS
    ensures forall t, c :: 0 <= t < tags && 0 <= c < CELLS ==> tagged[t, c] == TagCount(log, t, c)
    ensures forall c :: 0 <= c < CELLS ==> kinds[c] == KindCount(log, c)
  {
    tagged := new nat[tags, CELLS]((_, _) => 0);
    kinds := new nat[CELLS](_ => 0);
    for i := 0 to |log|
      invariant forall t, c :: 0 <= t < tags && 0 <= c < CELLS ==> tagged[t, c] == TagCount(log[..i], t, c)
      invariant forall c :: 0 <= c < CELLS ==> kinds[c] == KindCount(log[..i], c)
    {
      var hit := log[i];
      assert log[..i + 1][..i] == log[..i];
      tagged[hit.tag, hit.cell] := tagged[hit.tag, hit.cell] + 1;
      kinds[hit.cell] := kinds[hit.cell] + 1;
    }
    assert log[..|log|] == log;
  }

  lemma {:induction false} SumOverTagsAppend(log: seq<Hit>, hit: Hit, tags: nat, cell: nat)
    ensures SumOverTags(log + [hit], tags, cell)
         == SumOverTags(log, tags, cell) + if hit.tag < tags && hit.cell == cell then 1 else 0
  {
    if tags > 0 {
      SumOverTagsAppend(log, hit, tags - 1, cell);
      assert (log + [hit])[..|log|] == log;
    }
  }

  lemma {:induction false} SumOverTagsOfNothing(tags: nat, cell: nat)
    ensures SumOverTags([], tags, cell) == 0
  {
    if tags > 0 {
      SumOverTagsOfNothing(tags - 1, cell);
    }
  }

  /** The report's check: for every execution, the tagged counts of a kind and direction sum
      to the count of the build that needs no tags. */
  lemma {:induction false} TaggedSumsToKinds(log: seq<Hit>, tags: nat, cell: nat)
    requires InTable(log, tags)
    ensures SumOverTags(log, tags, cell) == KindCount(log, cell)
  {
    if log == [] {
      SumOverTagsOfNothing(tags, cell);
    } else {
      var front, hit := log[..|log| - 1], log[|log| - 1];
      assert log == front + [hit];
      TaggedSumsToKinds(front, tags, cell);
      SumOverTagsAppend(front, hit, tags, cell);
    }
  }

  // ---------- Every program stays inside its table

  /** The name under which a category is numbered. */
  function CategoryName(c: Category): string {
    match c
    case Untagged => "untagged"
    case Unmarked => "unmarked"
    case Region(name) => name
    case Cascade(parent) => "cascade:" + parent
    case RuntimeList(operation) => "runtime_list:" + operation
    case RuntimeOther => "runtime_other"
  }

  /** Apart from the names of regions, which come from the markers, equal names mean equal
      categories. */
  lemma NamesTellCategories(a: Category, b: Category)
    requires !a.Region? && !b.Region? && CategoryName(a) == CategoryName(b)
    ensures a == b
  {
    var name := CategoryName(a);
    assert a.Cascade? <==> name[0] == 'c';
    assert b.Cascade? <==> name[0] == 'c';
    if a.Cascade? {
      assert a.parent == name[8..] && b.parent == name[8..];
    } else {
      assert a.RuntimeList? <==> |name| >= 13 && name[8] == 'l';
      assert b.RuntimeList? <==> |name| >= 13 && name[8] == 'l';
      if a.RuntimeList? {
        assert a.operation == name[13..] && b.operation == name[13..];
      } else {
        assert a.Unmarked? <==> name[2] == 'm';
        assert b.Unmarked? <==> name[2] == 'm';
        assert a.Untagged? <==> name[2] == 't';
        assert b.Untagged? <==> name[2] == 't';
      }
    }
  }

  function Index(names: seq<string>, name: string): (i: nat)
    requires name in names
    ensures i < |names| && names[i] == name
  {
    if names[0] == name then 0 else 1 + Index(names[1..], name)
  }

  /** The tag as the generated program holds it. */
  function PackedHit(entry: Entry, names: seq<string>): Hit
    requires CategoryName(entry.tag.category) in names
  {
    Hit(Pack(entry.tag.number, Index(names, CategoryName(entry.tag.category))), entry.cell)
  }

  function PackedLog(log: seq<Entry>, names: seq<string>): seq<Hit>
    requires forall i :: 0 <= i < |log| ==> CategoryName(log[i].tag.category) in names
  {
    seq(|log|, i requires 0 <= i < |log| => PackedHit(log[i], names))
  }

  predicate Known(c: Category, names: seq<string>) { CategoryName(c) in names }

  /** The rewriting has numbered every category that a call in this routine sets. */
  predicate RoutineKnown(r: Routine, names: seq<string>) {
    forall n :: 0 <= n < |r.body| ==>
      match r.body[n]
      case Operation(_) => true
      case Call(callee) => (r.Saving? || Known(Given(r, ORIGIN, ORIGIN).category, names)) && RoutineKnown(callee, names)
      case Bare(callee) => RoutineKnown(callee, names)
  }

  /** So it has for this code, which calls only functions that the source defines. */
  predicate CodeKnown(code: Code, names: seq<string>, limit: nat) {
    match code
    case Stop => true
    case Help(category, helper, next) =>
      Known(category, names) && RoutineKnown(helper, names) && CodeKnown(next, names, limit)
    case Runtime(routine, next) => RoutineKnown(routine, names) && CodeKnown(next, names, limit)
    case Unseen(routine, next) => RoutineKnown(routine, names) && CodeKnown(next, names, limit)
    case Enter(number, inner, next) =>
      number <= limit && CodeKnown(inner, names, limit) && CodeKnown(next, names, limit)
  }

  /** The global tag before the program starts. */
  const ORIGIN := Tag(0, Untagged)

  predicate Fits(tag: Tag, names: seq<string>, limit: nat) {
    tag.number <= limit && Known(tag.category, names)
  }

  ghost predicate AllFit(log: seq<Entry>, names: seq<string>, limit: nat) {
    forall i :: 0 <= i < |log| ==> Fits(log[i].tag, names, limit)
  }

  lemma {:induction false} RoutineFits(r: Routine, entry: Tag, names: seq<string>, limit: nat)
    requires RoutineKnown(r, names) && Fits(entry, names, limit)
    ensures Fits(Leaves(r, entry), names, limit) && AllFit(Log(r, entry), names, limit)
    decreases r, |r.body| + 1
  {
    StepsFit(r, |r.body|, entry, names, limit);
  }

  lemma {:induction false} StepsFit(r: Routine, n: nat, entry: Tag, names: seq<string>, limit: nat)
    requires n <= |r.body| && RoutineKnown(r, names) && Fits(entry, names, limit)
    ensures Fits(TagAt(r, n, entry), names, limit) && AllFit(LogUpTo(r, n, entry), names, limit)
    decreases r, n
  {
    if n > 0 {
      StepsFit(r, n - 1, entry, names, limit);
      var now := TagAt(r, n - 1, entry);
      match r.body[n - 1]
      case Operation(_) =>
      case Call(callee) => RoutineFits(callee, Given(r, entry, now), names, limit);
      case Bare(callee) => RoutineFits(callee, now, names, limit);
    }
  }

  lemma {:induction false} ProgramFits(code: Code, number: nat, tag: Tag, names: seq<string>, limit: nat)
    requires CodeKnown(code, names, limit) && "untagged" in names
    requires number <= limit && Fits(tag, names, limit)
    ensures Fits(TagAfter(code, number, tag), names, limit) && AllFit(CodeLog(code, number, tag), names, limit)
    decreases code
  {
    match code
    case Stop =>
    case Help(category, helper, next) =>
      RoutineFits(helper, Tag(number, category), names, limit);
      ProgramFits(next, number, Leaves(helper, Tag(number, category)), names, limit);
    case Runtime(routine, next) =>
      RoutineFits(routine, Tag(number, Untagged), names, limit);
      ProgramFits(next, number, Leaves(routine, Tag(number, Untagged)), names, limit);
    case Unseen(routine, next) =>
      RoutineFits(routine, tag, names, limit);
      ProgramFits(next, number, Leaves(routine, tag), names, limit);
    case Enter(callee, inner, next) =>
      ProgramFits(inner, callee, tag, names, limit);
      ProgramFits(next, number, TagAfter(inner, callee, tag), names, limit);
  }

  /** Every operation of every program whose function numbers are at most `limit` hits a row of
      the allocated table, and the row unpacks to the function and the category's name. So the
      tagged counts of the program sum to the kinds-only counts. */
  lemma ProgramStaysInTable(code: Code, number: nat, names: seq<string>, limit: nat)
    requires CodeKnown(code, names, limit) && number <= limit
    requires "untagged" in names && |names| <= CATEGORY_LIMIT
    ensures AllFit(CodeLog(code, number, ORIGIN), names, limit)
    ensures var log := CodeLog(code, number, ORIGIN);
            var hits, tags := PackedLog(log, names), (limit + 1) * CATEGORY_LIMIT;
            && InTable(hits, tags)
            && (forall i :: 0 <= i < |log| ==>
                  && FunctionBits(hits[i].tag) == log[i].tag.number
                  && CategoryBits(hits[i].tag) < |names|
                  && names[CategoryBits(hits[i].tag)] == CategoryName(log[i].tag.category))
            && (forall cell: nat :: SumOverTags(hits, tags, cell) == KindCount(hits, cell))
  {
    ProgramFits(code, number, ORIGIN, names, limit);
    var log := CodeLog(code, number, ORIGIN);
    var hits, tags := PackedLog(log, names), (limit + 1) * CATEGORY_LIMIT;
    forall i | 0 <= i < |log|
      ensures hits[i].tag < tags && hits[i].cell < CELLS
      ensures FunctionBits(hits[i].tag) == log[i].tag.number
      ensures CategoryBits(hits[i].tag) == Index(names, CategoryName(log[i].tag.category))
    {
      assert Fits(log[i].tag, names, limit);
      PackedTags(log[i].tag.number, Index(names, CategoryName(log[i].tag.category)), 0, limit);
    }
    forall cell: nat
      ensures SumOverTags(hits, tags, cell) == KindCount(hits, cell)
    {
      TaggedSumsToKinds(hits, tags, cell);
    }
  }

  // ---------- Rows and groups

  datatype Row = Row(cell: nat, number: nat, category: nat, count: nat)

  /** The row of one tag and cell: only what was counted is written. */
  function CellRow(log: seq<Hit>, tag: nat, cell: nat): seq<Row> {
    var n := TagCount(log, tag, cell);
    if n > 0 then [Row(cell, FunctionBits(tag), CategoryBits(tag), n)] else []
  }

  function TagRows(log: seq<Hit>, tag: nat, cells: nat): seq<Row> {
    if cells == 0 then [] else TagRows(log, tag, cells - 1) + CellRow(log, tag, cells - 1)
  }

  function Rows(log: seq<Hit>, tags: nat, cells: nat): seq<Row> {
    if tags == 0 then [] else Rows(log, tags - 1, cells) + TagRows(log, tags - 1, cells)
  }

  /** Sums the rows the filter selects, as every table of the report does. */
  function SumWhere(rows: seq<Row>, select: Row -> bool): nat {
    if rows == [] then 0 else (if select(rows[0]) then rows[0].count else 0) + SumWhere(rows[1..], select)
  }

  function OfCell(cell: nat): Row -> bool { (r: Row) => r.cell == cell }

  lemma {:induction false} SumWhereConcat(a: seq<Row>, b: seq<Row>, select: Row -> bool)
    ensures SumWhere(a + b, select) == SumWhere(a, select) + SumWhere(b, select)
  {
    if a == [] {
      assert a + b == b;
    } else {
      assert (a + b)[1..] == a[1..] + b;
      SumWhereConcat(a[1..], b, select);
    }
  }

  lemma CellRowSum(log: seq<Hit>, tag: nat, c: nat, cell: nat)
    ensures SumWhere(CellRow(log, tag, c), OfCell(cell)) == if c == cell then TagCount(log, tag, cell) else 0
  {
    var row := CellRow(log, tag, c);
    if row != [] {
      assert row[1..] == [];
    }
  }

  lemma {:induction false} TagRowsSum(log: seq<Hit>, tag: nat, cells: nat, cell: nat)
    ensures SumWhere(TagRows(log, tag, cells), OfCell(cell)) == if cell < cells then TagCount(log, tag, cell) else 0
  {
    if cells > 0 {
      var before, more := TagRows(log, tag, cells - 1), CellRow(log, tag, cells - 1);
      TagRowsSum(log, tag, cells - 1, cell);
      CellRowSum(log, tag, cells - 1, cell);
      assert TagRows(log, tag, cells) == before + more;
      SumWhereConcat(before, more, OfCell(cell));
    }
  }

  /** Leaving out the zero rows loses nothing: reading the file back and summing a kind and
      direction over all functions and categories gives the sum over the table. */
  lemma {:induction false} RowsSum(log: seq<Hit>, tags: nat, cells: nat, cell: nat)
    requires cell < cells
    ensures SumWhere(Rows(log, tags, cells), OfCell(cell)) == SumOverTags(log, tags, cell)
  {
    if tags > 0 {
      var before, more := Rows(log, tags - 1, cells), TagRows(log, tags - 1, cells);
      RowsSum(log, tags - 1, cells, cell);
      TagRowsSum(log, tags - 1, cells, cell);
      assert Rows(log, tags, cells) == before + more;
      SumWhereConcat(before, more, OfCell(cell));
    }
  }

  /** The first group with a matching prefix, or |groups| when the report stops with an error. */
  function GroupOf(groups: seq<seq<string>>, name: string): (g: nat)
    ensures g <= |groups|
    ensures g < |groups| ==> exists p :: p in groups[g] && p <= name
    ensures forall i :: 0 <= i < g ==> forall p :: p in groups[i] ==> !(p <= name)
  {
    if groups == [] then 0
    else if exists p :: p in groups[0] && p <= name then 0
    else
      var rest := GroupOf(groups[1..], name);
      assert rest < |groups| - 1 ==> groups[1..][rest] == groups[rest + 1];
      assert forall i :: 1 <= i < rest + 1 ==> groups[i] == groups[1..][i - 1];
      rest + 1
  }

  function InGroup(groups: seq<seq<string>>, names: seq<string>, g: nat, cell: nat): Row -> bool {
    (r: Row) => r.cell == cell && r.category < |names| && GroupOf(groups, names[r.category]) == g
  }

  function SumOverGroups(rows: seq<Row>, groups: seq<seq<string>>, names: seq<string>, n: nat, cell: nat): nat {
    if n == 0 then 0
    else SumOverGroups(rows, groups, names, n - 1, cell) + SumWhere(rows, InGroup(groups, names, n - 1, cell))
  }

  ghost predicate Grouped(rows: seq<Row>, groups: seq<seq<string>>, names: seq<string>) {
    forall i :: 0 <= i < |rows| ==>
      rows[i].category < |names| && GroupOf(groups, names[rows[i].category]) < |groups|
  }

  lemma {:induction false} GroupsOfOneRow(rows: seq<Row>, groups: seq<seq<string>>, names: seq<string>, n: nat, cell: nat)
    requires rows != [] && rows[0].category < |names|
    ensures SumOverGroups(rows, groups, names, n, cell)
         == SumOverGroups(rows[1..], groups, names, n, cell)
            + if rows[0].cell == cell && GroupOf(groups, names[rows[0].category]) < n then rows[0].count else 0
  {
    if n > 0 {
      GroupsOfOneRow(rows, groups, names, n - 1, cell);
    }
  }

  lemma {:induction false} GroupsOfNothing(groups: seq<seq<string>>, names: seq<string>, n: nat, cell: nat)
    ensures SumOverGroups([], groups, names, n, cell) == 0
  {
    if n > 0 {
      GroupsOfNothing(groups, names, n - 1, cell);
    }
  }

  /** Grouping conserves: unless some category belongs to no group, where the report stops,
      the groups' totals add up to the kinds-only count. */
  lemma GroupsSumToKinds(log: seq<Hit>, tags: nat, cells: nat, groups: seq<seq<string>>, names: seq<string>, cell: nat)
    requires InTable(log, tags) && cell < cells && Grouped(Rows(log, tags, cells), groups, names)
    ensures SumOverGroups(Rows(log, tags, cells), groups, names, |groups|, cell) == KindCount(log, cell)
  {
    GroupsSumToRows(Rows(log, tags, cells), groups, names, cell);
    RowsSum(log, tags, cells, cell);
    TaggedSumsToKinds(log, tags, cell);
  }

  lemma {:induction false} GroupsSumToRows(rows: seq<Row>, groups: seq<seq<string>>, names: seq<string>, cell: nat)
    requires Grouped(rows, groups, names)
    ensures SumOverGroups(rows, groups, names, |groups|, cell) == SumWhere(rows, OfCell(cell))
  {
    if rows == [] {
      GroupsOfNothing(groups, names, |groups|, cell);
    } else {
      GroupsOfOneRow(rows, groups, names, |groups|, cell);
      GroupsSumToRows(rows[1..], groups, names, cell);
    }
  }

  /** Every row comes from an operation that was counted. */
  lemma {:induction false} CountedOnce(log: seq<Hit>, tag: nat, cell: nat)
    requires TagCount(log, tag, cell) > 0
    ensures Hit(tag, cell) in log
  {
    var n := |log| - 1;
    if log[n] != Hit(tag, cell) {
      CountedOnce(log[..n], tag, cell);
    }
  }

  ghost predicate HasHit(log: seq<Hit>, category: nat) {
    exists hit :: hit in log && CategoryBits(hit.tag) == category
  }

  ghost predicate FromHits(log: seq<Hit>, rows: seq<Row>) {
    forall i :: 0 <= i < |rows| ==> HasHit(log, rows[i].category)
  }

  lemma FromHitsConcat(log: seq<Hit>, a: seq<Row>, b: seq<Row>)
    requires FromHits(log, a) && FromHits(log, b)
    ensures FromHits(log, a + b)
  {
  }

  lemma CellRowFromHits(log: seq<Hit>, tag: nat, cell: nat)
    ensures FromHits(log, CellRow(log, tag, cell))
  {
    if TagCount(log, tag, cell) > 0 {
      CountedOnce(log, tag, cell);
      assert HasHit(log, CategoryBits(tag));
    }
  }

  lemma {:induction false} TagRowsFromHits(log: seq<Hit>, tag: nat, cells: nat)
    ensures FromHits(log, TagRows(log, tag, cells))
  {
    if cells > 0 {
      TagRowsFromHits(log, tag, cells - 1);
      CellRowFromHits(log, tag, cells - 1);
      FromHitsConcat(log, TagRows(log, tag, cells - 1), CellRow(log, tag, cells - 1));
    }
  }

  lemma {:induction false} RowsFromHits(log: seq<Hit>, tags: nat, cells: nat)
    ensures FromHits(log, Rows(log, tags, cells))
  {
    if tags > 0 {
      RowsFromHits(log, tags - 1, cells);
      TagRowsFromHits(log, tags - 1, cells);
      FromHitsConcat(log, Rows(log, tags - 1, cells), TagRows(log, tags - 1, cells));
    }
  }

  lemma HitsAreGrouped(hits: seq<Hit>, rows: seq<Row>, names: seq<string>, groups: seq<seq<string>>)
    requires FromHits(hits, rows)
    requires forall i :: 0 <= i < |hits| ==> CategoryBits(hits[i].tag) < |names|
    requires forall i :: 0 <= i < |names| ==> GroupOf(groups, names[i]) < |groups|
    ensures Grouped(rows, groups, names)
  {
    forall i | 0 <= i < |rows|
      ensures rows[i].category < |names|
    {
      assert HasHit(hits, rows[i].category);
    }
  }

  /** For every program: when each category name belongs to a group, the groups of the report
      add up to what the build without tags counts. */
  lemma ProgramGroupsSum(code: Code, number: nat, names: seq<string>, limit: nat, groups: seq<seq<string>>, cell: Cell)
    requires CodeKnown(code, names, limit) && number <= limit
    requires "untagged" in names && |names| <= CATEGORY_LIMIT
    requires forall i :: 0 <= i < |names| ==> GroupOf(groups, names[i]) < |groups|
    ensures AllFit(CodeLog(code, number, ORIGIN), names, limit)
    ensures var hits := PackedLog(CodeLog(code, number, ORIGIN), names);
            var rows := Rows(hits, (limit + 1) * CATEGORY_LIMIT, CELLS);
            SumOverGroups(rows, groups, names, |groups|, cell) == KindCount(hits, cell)
  {
    ProgramStaysInTable(code, number, names, limit);
    var hits, tags := PackedLog(CodeLog(code, number, ORIGIN), names), (limit + 1) * CATEGORY_LIMIT;
    RowsFromHits(hits, tags, CELLS);
    HitsAreGrouped(hits, Rows(hits, tags, CELLS), names, groups);
    GroupsSumToKinds(hits, tags, CELLS, groups, names, cell);
  }
}
