/** Counting, splitting and replacing in benchmarks/c/string.c: three loops over `strstr`. A
    C string is modelled by its characters before the terminating NUL. */
module StringOps {
  import opened Options
  import opened Sequences

  // ---------- strstr

  predicate OccursAt(s: string, target: string, i: nat) {
    i + |target| <= |s| && forall k :: 0 <= k < |target| ==> s[i + k] == target[k]
  }

  /** `strstr(s + start, target)`, as a position in s. */
  function Find(s: string, target: string, start: nat): (r: Option<nat>)
    ensures r.Some? ==> start <= r.value && r.value + |target| <= |s|
    decreases |s| - start
  {
    if start + |target| > |s| then None
    else if OccursAt(s, target, start) then Some(start)
    else Find(s, target, start + 1)
  }

  /** It finds the first occurrence, and misses none. */
  lemma {:induction false} FindIsFirst(s: string, target: string, start: nat)
    ensures match Find(s, target, start)
            case Some(at) => OccursAt(s, target, at) && forall i :: start <= i < at ==> !OccursAt(s, target, i)
            case None => forall i :: start <= i ==> !OccursAt(s, target, i)
    decreases |s| - start
  {
    if start + |target| <= |s| && !OccursAt(s, target, start) {
      FindIsFirst(s, target, start + 1);
    }
  }

  // ---------- Parts

  function Split(s: string, target: string, start: nat): (parts: seq<string>)
    requires target != "" && start <= |s|
    ensures parts != []
    decreases |s| - start
  {
    match Find(s, target, start)
    case None => [s[start..]]
    case Some(i) => [s[start..i]] + Split(s, target, i + |target|)
  }

  function Join(parts: seq<string>, separator: string): string
    requires parts != []
  {
    if |parts| == 1 then parts[0] else parts[0] + separator + Join(parts[1..], separator)
  }

  function Replace(s: string, target: string, substitute: string): string
    requires target != ""
  {
    Join(Split(s, target, 0), substitute)
  }

  /** Joining the parts with what separated them gives the string back. */
  lemma {:induction false} JoinUndoesSplit(s: string, target: string, start: nat)
    requires target != "" && start <= |s|
    ensures Join(Split(s, target, start), target) == s[start..]
    decreases |s| - start
  {
    match Find(s, target, start)
    case None =>
    case Some(i) =>
      FindIsFirst(s, target, start);
      JoinUndoesSplit(s, target, i + |target|);
      JoinStep(s, target, start, i);
  }

  lemma JoinStep(s: string, target: string, start: nat, i: nat)
    requires target != "" && start <= |s| && Find(s, target, start) == Some(i) && OccursAt(s, target, i)
    requires Join(Split(s, target, i + |target|), target) == s[i + |target|..]
    ensures Join(Split(s, target, start), target) == s[start..]
  {
    CutOut(s, target, start, i);
    JoinFirst(s, target, start, i, target);
  }

  lemma CutOut(s: string, target: string, start: nat, i: nat)
    requires start <= i && OccursAt(s, target, i)
    ensures s[start..i] + target + s[i + |target|..] == s[start..]
  {
    assert s[i..i + |target|] == target;
    assert s[start..] == s[start..i] + s[i..i + |target|] + s[i + |target|..];
  }

  lemma SplitFirst(s: string, target: string, start: nat, i: nat)
    requires target != "" && start <= |s| && Find(s, target, start) == Some(i)
    ensures Split(s, target, start) == [s[start..i]] + Split(s, target, i + |target|)
  {
  }

  lemma JoinFirst(s: string, target: string, start: nat, i: nat, separator: string)
    requires target != "" && start <= |s| && Find(s, target, start) == Some(i)
    ensures Join(Split(s, target, start), separator)
         == s[start..i] + separator + Join(Split(s, target, i + |target|), separator)
  {
    SplitFirst(s, target, start, i);
    JoinCons(s[start..i], Split(s, target, i + |target|), separator);
  }

  lemma JoinCons(part: string, rest: seq<string>, separator: string)
    requires rest != []
    ensures Join([part] + rest, separator) == part + separator + Join(rest, separator)
  {
    assert ([part] + rest)[1..] == rest;
  }

  /** No part contains the separator, so the split is complete. */
  lemma {:induction false} PartsHaveNoSeparator(s: string, target: string, start: nat, k: nat, i: nat)
    requires target != "" && start <= |s| && k < |Split(s, target, start)|
    ensures !OccursAt(Split(s, target, start)[k], target, i)
    decreases |s| - start
  {
    FindIsFirst(s, target, start);
    var found := Find(s, target, start);
    var end := if found.Some? then found.value else |s|;
    if k > 0 {
      PartsHaveNoSeparator(s, target, end + |target|, k - 1, i);
    } else if i + |target| <= end - start {
      var part := Split(s, target, start)[0];
      assert part == s[start..end];
      assert !OccursAt(s, target, start + i);
      var k :| 0 <= k < |target| && s[start + i + k] != target[k];
      assert part[i + k] == s[start + (i + k)];
    }
  }

  lemma {:induction false} JoinLength(parts: seq<string>, a: string, b: string)
    requires parts != []
    ensures |Join(parts, b)| == |Join(parts, a)| + (|parts| - 1) * |b| - (|parts| - 1) * |a|
    ensures (|parts| - 1) * |a| <= |Join(parts, a)|
  {
    if |parts| > 1 {
      JoinLength(parts[1..], a, b);
      var k := |parts| - 2;
      assert (k + 1) * |a| == k * |a| + |a| && (k + 1) * |b| == k * |b| + |b|;
    }
  }

  lemma ProductAtMost(k: nat, a: nat, b: nat)
    requires b <= 4 * a
    ensures k * b <= 4 * (k * a)
  {
    assert k * b <= k * (4 * a);
  }

  /** The output fits the buffer of 4 * |s| + 1 characters. */
  lemma ReplaceFits(s: string, target: string, substitute: string)
    requires target != "" && |substitute| <= 4 * |target|
    ensures |Replace(s, target, substitute)| <= 4 * |s|
  {
    var parts := Split(s, target, 0);
    JoinUndoesSplit(s, target, 0);
    JoinLength(parts, target, substitute);
    ProductAtMost(|parts| - 1, |target|, |substitute|);
  }

  lemma SplitOfSeparator(target: string)
    requires target != ""
    ensures Split(target, target, 0) == ["", ""]
  {
    assert OccursAt(target, target, 0) && Find(target, target, 0) == Some(0);
    assert Find(target, target, |target|).None?;
    assert Split(target, target, |target|) == [target[|target|..]];
    assert Split(target, target, 0) == [target[0..0]] + Split(target, target, 0 + |target|);
    assert target[0..0] == "" && target[|target|..] == "";
  }

  /** The buffer is large enough for every string if and only if the new text is at most four
      times as long as the text it replaces. */
  lemma BufferSufficesIff(target: string, substitute: string)
    requires target != ""
    ensures (forall s: string :: |Replace(s, target, substitute)| <= 4 * |s|) <==> |substitute| <= 4 * |target|
  {
    if |substitute| <= 4 * |target| {
      forall s: string
        ensures |Replace(s, target, substitute)| <= 4 * |s|
      {
        ReplaceFits(s, target, substitute);
      }
    } else {
      SplitOfSeparator(target);
      assert Join([""], substitute) == "";
      assert ["", ""][1..] == [""];
      assert Replace(target, target, substitute) == "" + substitute + "";
      assert |Replace(target, target, substitute)| > 4 * |target|;
    }
  }

  /** For one string: the result fits exactly when what the substitutes add does. */
  lemma FitsIff(s: string, target: string, substitute: string)
    requires target != ""
    ensures var found := |Split(s, target, 0)| - 1;
            |Replace(s, target, substitute)| <= 4 * |s| <==> found * |substitute| <= 3 * |s| + found * |target|
  {
    var parts := Split(s, target, 0);
    JoinUndoesSplit(s, target, 0);
    JoinLength(parts, target, substitute);
  }

  /** After an occurrence the search goes on further along, for every string, if and only if the
      text searched for is not empty. An empty one is found where the search stands, so the
      loops that look for it do not end. */
  lemma SearchAdvancesIff(target: string)
    ensures target != "" <==>
              forall s: string, p: nat :: Find(s, target, p).Some? ==> Find(s, target, p).value + |target| > p
  {
    if target == "" {
      EmptyIsFoundInPlace("", 0);
      assert Find("", target, 0).Some? && !(Find("", target, 0).value + |target| > 0);
    }
  }

  lemma EmptyIsFoundInPlace(s: string, p: nat)
    requires p <= |s|
    ensures Find(s, "", p) == Some(p)
  {
    assert OccursAt(s, "", p);
  }

  // ---------- The loops

  /** `memcpy(buf + at, text, |text|)` after `done` has been written. */
  method CopyInto(buf: array<char>, at: nat, text: string, ghost done: string)
    requires at + |text| <= buf.Length && buf[..at] == done
    modifies buf
    ensures buf[..at + |text|] == done + text
  {
    for i := 0 to |text|
      invariant buf[..at] == done
      invariant forall j :: 0 <= j < i ==> buf[at + j] == text[j]
    {
      buf[at + i] := text[i];
    }
  }

  /** The loop body: the chunk before an occurrence, then the substitute. */
  method CopyBoth(buf: array<char>, at: nat, chunk: string, substitute: string, ghost done: string, ghost after: string)
    returns (out: nat)
    requires |after| <= buf.Length && at <= buf.Length && buf[..at] == done && after == done + chunk + substitute
    modifies buf
    ensures out == |after| && buf[..out] == after
  {
    CopyInto(buf, at, chunk, done);
    out := at + |chunk|;
    CopyInto(buf, out, substitute, done + chunk);
    out := out + |substitute|;
  }

  /** `memcpy(buf + at, text, |text| + 1)`: the text with its NUL. */
  method CopyTerminated(buf: array<char>, at: nat, text: string, ghost done: string, ghost whole: string)
    returns (length: nat)
    requires |whole| < buf.Length && at <= buf.Length && buf[..at] == done && whole == done + text
    modifies buf
    ensures length == |whole| && buf[..length] == whole && buf[length] == '\0'
  {
    CopyInto(buf, at, text + ['\0'], done);
    length := at + |text|;
    assert done + (text + ['\0']) == whole + ['\0'];
    assert buf[..length] == buf[..length + 1][..length] && buf[length] == buf[..length + 1][length];
  }

  /** `replace_copy`: the copy never overruns its buffer, ends in NUL, and is the parts joined
      with the new text. */
  method ReplaceCopy(s: string, target: string, substitute: string) returns (buf: array<char>, length: nat)
    requires target != "" && |Replace(s, target, substitute)| <= 4 * |s|
    ensures buf.Length == 4 * |s| + 1 && length < buf.Length
    ensures buf[..length] == Replace(s, target, substitute) && buf[length] == '\0'
  {
    buf := new char[|s| * 4 + 1];
    ghost var whole, done := Replace(s, target, substitute), "";
    StartUnderway(s, target, substitute);
    var out: nat, p: nat := 0, 0;
    var found := Find(s, target, p);
    while found.Some?
      invariant found == Find(s, target, p) && |whole| < buf.Length
      invariant out <= buf.Length && buf[..out] == done
      invariant Underway(s, target, substitute, p, done, whole)
      decreases |s| - p
    {
      ghost var after := done + s[p..found.value] + substitute;
      ReplaceStep(s, target, substitute, p, found.value, done, whole);
      out := CopyBoth(buf, out, s[p..found.value], substitute, done, after);
      done := after;
      p := found.value + |target|;
      found := Find(s, target, p);
    }
    ReplaceEnd(s, target, substitute, p, done, whole);
    length := CopyTerminated(buf, out, s[p..], done, whole);
  }

  lemma StartUnderway(s: string, target: string, substitute: string)
    requires target != ""
    ensures Underway(s, target, substitute, 0, "", Replace(s, target, substitute))
  {
  }

  /** `done` has been written for the characters before p. */
  ghost predicate Underway(s: string, target: string, substitute: string, p: nat, done: string, whole: string) {
    target != "" && p <= |s| && done + Join(Split(s, target, p), substitute) == whole
  }

  /** What the loop writes before it moves on to the next occurrence. */
  lemma ReplaceStep(s: string, target: string, substitute: string, p: nat, i: nat, done: string, whole: string)
    requires Underway(s, target, substitute, p, done, whole) && Find(s, target, p) == Some(i)
    ensures Underway(s, target, substitute, i + |target|, done + s[p..i] + substitute, whole)
    ensures |done + s[p..i] + substitute| <= |whole|
  {
    var rest := Join(Split(s, target, i + |target|), substitute);
    JoinFirst(s, target, p, i, substitute);
    Associative(s[p..i], substitute, rest);
    Associative(done, s[p..i] + substitute, rest);
    Associative(done, s[p..i], substitute);
  }

  lemma ReplaceEnd(s: string, target: string, substitute: string, p: nat, done: string, whole: string)
    requires Underway(s, target, substitute, p, done, whole) && Find(s, target, p).None?
    ensures whole == done + s[p..]
  {
    assert Split(s, target, p) == [s[p..]];
  }

  /** The occurrences that one loop over `strstr` meets. */
  function Occurrences(s: string, target: string, start: nat): nat
    requires target != "" && start <= |s|
    decreases |s| - start
  {
    match Find(s, target, start)
    case None => 0
    case Some(i) => 1 + Occurrences(s, target, i + |target|)
  }

  lemma {:induction false} OccurrencesSeparateParts(s: string, target: string, start: nat)
    requires target != "" && start <= |s|
    ensures Occurrences(s, target, start) == |Split(s, target, start)| - 1
    decreases |s| - start
  {
    if Find(s, target, start).Some? {
      OccurrencesSeparateParts(s, target, Find(s, target, start).value + |target|);
    }
  }

  /** One pass of `bench_count`: one less than the number of parts. */
  method CountOnce(s: string, needle: string) returns (count: nat)
    requires needle != ""
    ensures count == |Split(s, needle, 0)| - 1
  {
    OccurrencesSeparateParts(s, needle, 0);
    count := Search(s, needle);
  }

  method Search(s: string, needle: string) returns (count: nat)
    requires needle != ""
    ensures count == Occurrences(s, needle, 0)
  {
    count := 0;
    var p: nat := 0;
    var found := Find(s, needle, p);
    while found.Some?
      invariant p <= |s| && found == Find(s, needle, p)
      invariant count + Occurrences(s, needle, p) == Occurrences(s, needle, 0)
      decreases |s| - p
    {
      count := count + 1;
      p := found.value + |needle|;
      found := Find(s, needle, p);
    }
  }

  method BenchCount(s: string, needle: string, iters: nat) returns (total: nat)
    requires needle != ""
    ensures total == iters * (|Split(s, needle, 0)| - 1)
  {
    total := 0;
    ghost var each := |Split(s, needle, 0)| - 1;
    for i := 0 to iters
      invariant total == i * each
    {
      var count := CountOnce(s, needle);
      total := total + count;
      assert (i + 1) * each == i * each + each;
    }
  }

  /** Store a part, after doubling the array with `realloc` if it is full. */
  method Store(parts: array<string>, count: nat, part: string) returns (larger: array<string>)
    requires count <= parts.Length && parts.Length >= 16
    modifies parts
    ensures larger == parts || fresh(larger)
    ensures count < larger.Length && larger.Length >= 16
    ensures larger[..count + 1] == old(parts[..count]) + [part]
  {
    larger := parts;
    if count == parts.Length {
      larger := new string[2 * parts.Length](_ => "");
      forall i | 0 <= i < parts.Length {
        larger[i] := parts[i];
      }
    }
    assert larger[..count] == old(parts[..count]);
    larger[count] := part;
  }

  /** One pass of `bench_split`: every part is stored within the capacity of the array. */
  method SplitInto(s: string, delim: string) returns (parts: array<string>, count: nat)
    requires delim != ""
    ensures count <= parts.Length && parts[..count] == Split(s, delim, 0)
  {
    count := 0;
    parts := new string[16](_ => "");
    ghost var whole, done: seq<string> := Split(s, delim, 0), [];
    SplitStart(s, delim);
    var p: nat := 0;
    var found := Find(s, delim, p);
    while found.Some?
      invariant fresh(parts) && 16 <= parts.Length && count <= parts.Length
      invariant found == Find(s, delim, p) && parts[..count] == done
      invariant SplitUnderway(s, delim, p, done, whole)
      decreases |s| - p
    {
      SplitStep(s, delim, p, found.value, done, whole);
      done := done + [s[p..found.value]];
      parts := Store(parts, count, s[p..found.value]);
      count := count + 1;
      p := found.value + |delim|;
      found := Find(s, delim, p);
    }
    SplitEnd(s, delim, p, done, whole);
    parts := Store(parts, count, s[p..]);
    count := count + 1;
  }

  lemma SplitStart(s: string, delim: string)
    requires delim != ""
    ensures SplitUnderway(s, delim, 0, [], Split(s, delim, 0))
  {
  }

  lemma SplitEnd(s: string, delim: string, p: nat, done: seq<string>, whole: seq<string>)
    requires SplitUnderway(s, delim, p, done, whole) && Find(s, delim, p).None?
    ensures done + [s[p..]] == whole
  {
    assert Split(s, delim, p) == [s[p..]];
  }

  ghost predicate SplitUnderway(s: string, delim: string, p: nat, done: seq<string>, whole: seq<string>) {
    delim != "" && p <= |s| && done + Split(s, delim, p) == whole
  }

  lemma SplitStep(s: string, delim: string, p: nat, i: nat, done: seq<string>, whole: seq<string>)
    requires SplitUnderway(s, delim, p, done, whole) && Find(s, delim, p) == Some(i)
    ensures SplitUnderway(s, delim, i + |delim|, done + [s[p..i]], whole)
  {
    SplitFirst(s, delim, p, i);
    Regroup(done, [s[p..i]], Split(s, delim, i + |delim|), whole);
  }
}
