/** The `--kinds` rewriting of blorp/scripts/attribution/instrument_rc.py: find the function
    bodies by their braces, and wrap every atomic operation in them as `(counter,operation)`.
    The positions of the tokens, and of each atomic operation with its arguments, are given. */
module KindsRewrite {
  import opened Sequences
  import opened Options


  // ---------- Function bodies

  datatype Brace = OpenBrace(at: nat) | CloseBrace(at: nat)

  /** A body is source[start..end]. */
  datatype Span = Span(start: nat, end: nat)

  ghost predicate Ascending(braces: seq<Brace>) {
    forall i, j :: 0 <= i < j < |braces| ==> braces[i].at < braces[j].at
  }

  ghost predicate Apart(spans: seq<Span>) {
    && (forall i :: 0 <= i < |spans| ==> spans[i].start <= spans[i].end)
    && forall i, j :: 0 <= i < j < |spans| ==> spans[i].end < spans[j].start
  }

  /** The scan, with the depth it has reached. A stray closing brace takes it below zero. */
  function Depth(braces: seq<Brace>, n: nat): int
    requires n <= |braces|
  {
    if n == 0 then 0 else Depth(braces, n - 1) + if braces[n - 1].OpenBrace? then 1 else -1
  }

  /** A top-level body runs from a brace at depth 0 to the next brace that is back there. */
  ghost predicate IsBody(braces: seq<Brace>, a: nat, b: nat) {
    && a < b < |braces| && braces[a].OpenBrace? && braces[b].CloseBrace?
    && Depth(braces, a) == 0 && Depth(braces, b + 1) == 0
    && forall k :: a < k <= b ==> Depth(braces, k) > 0
  }

  /** A body that ends before brace n and follows a function's parameters. */
  ghost predicate IsFunction(braces: seq<Brace>, named: set<nat>, n: nat, s: Span) {
    exists a: nat, b: nat ::
      IsBody(braces, a, b) && b < n && braces[a].at in named && s == Span(braces[a].at + 1, braces[b].at)
  }

  ghost predicate BodiesFound(braces: seq<Brace>, named: set<nat>, n: nat, found: seq<Span>) {
    forall s :: s in found <==> IsFunction(braces, named, n, s)
  }

  /** The scan, before brace n, is inside a body that brace `a` opened. */
  ghost predicate Inside(braces: seq<Brace>, a: nat, n: nat) {
    && a < n <= |braces| && braces[a].OpenBrace? && Depth(braces, a) == 0
    && forall k :: a < k <= n ==> Depth(braces, k) > 0
  }

  lemma BodyEndingAt(braces: seq<Brace>, a: nat, n: nat, x: nat)
    requires n < |braces| && Inside(braces, a, n)
    ensures IsBody(braces, x, n) <==> x == a && Depth(braces, n + 1) == 0
  {
    if IsBody(braces, x, n) && x != a {
      assert false;
    }
  }

  /** Brace n ends at most the body that brace `a` opened. */
  lemma FunctionsNext(braces: seq<Brace>, named: set<nat>, n: nat, a: nat, s: Span)
    requires n < |braces| && (Depth(braces, n) > 0 ==> Inside(braces, a, n))
    ensures IsFunction(braces, named, n + 1, s) <==>
              || IsFunction(braces, named, n, s)
              || (Depth(braces, n) > 0 && Depth(braces, n + 1) == 0 && braces[a].at in named
                  && s == Span(braces[a].at + 1, braces[n].at))
  {
    if IsFunction(braces, named, n + 1, s) && !IsFunction(braces, named, n, s) {
      var x: nat, b: nat :| IsBody(braces, x, b) && b < n + 1 && braces[x].at in named
                            && s == Span(braces[x].at + 1, braces[b].at);
      assert b == n && Depth(braces, n) > 0;
      BodyEndingAt(braces, a, n, x);
    }
    if IsFunction(braces, named, n, s) {
      var x: nat, b: nat :| IsBody(braces, x, b) && b < n && braces[x].at in named
                            && s == Span(braces[x].at + 1, braces[b].at);
      assert b < n + 1;
    }
    if Depth(braces, n) > 0 && Depth(braces, n + 1) == 0 && braces[a].at in named {
      BodyEndingAt(braces, a, n, a);
      assert IsBody(braces, a, n);
    }
  }

  lemma FoundNext(braces: seq<Brace>, named: set<nat>, n: nat, found: seq<Span>, a: nat)
    requires n < |braces| && BodiesFound(braces, named, n, found)
    requires Depth(braces, n) > 0 ==> Inside(braces, a, n)
    ensures if Depth(braces, n) > 0 && Depth(braces, n + 1) == 0 && braces[a].at in named
            then BodiesFound(braces, named, n + 1, found + [Span(braces[a].at + 1, braces[n].at)])
            else BodiesFound(braces, named, n + 1, found)
  {
    forall s
      ensures IsFunction(braces, named, n + 1, s) <==>
                || s in found
                || (Depth(braces, n) > 0 && Depth(braces, n + 1) == 0 && braces[a].at in named
                    && s == Span(braces[a].at + 1, braces[n].at))
    {
      FunctionsNext(braces, named, n, a, s);
    }
  }

  ghost function NextAt(braces: seq<Brace>, i: nat): nat
    requires i <= |braces|
  {
    if i < |braces| then braces[i].at else if i == 0 then 0 else braces[i - 1].at + 1
  }

  /** Bodies end before the one being scanned, or before the next brace. */
  ghost predicate EndBefore(found: seq<Span>, limit: nat) {
    forall x :: 0 <= x < |found| ==> found[x].end < limit
  }

  /** What the scan knows before brace i, with `a` the brace that opened the current body. */
  ghost predicate Scanned(braces: seq<Brace>, named: set<nat>, i: nat, depth: int, a: nat, found: seq<Span>)
    requires i <= |braces|
  {
    && depth == Depth(braces, i)
    && (depth > 0 ==> Inside(braces, a, i))
    && BodiesFound(braces, named, i, found)
    && Apart(found)
    && EndBefore(found, if depth > 0 && a < |braces| then braces[a].at else NextAt(braces, i))
  }

  lemma ScanOpen(braces: seq<Brace>, named: set<nat>, i: nat, depth: int, a: nat, found: seq<Span>)
    requires Ascending(braces) && i < |braces| && Scanned(braces, named, i, depth, a, found) && braces[i].OpenBrace?
    ensures Scanned(braces, named, i + 1, depth + 1, if depth == 0 then i else a, found)
  {
    FoundNext(braces, named, i, found, a);
  }

  lemma ScanClose(braces: seq<Brace>, named: set<nat>, i: nat, depth: int, a: nat, found: seq<Span>)
    requires Ascending(braces) && i < |braces| && Scanned(braces, named, i, depth, a, found) && braces[i].CloseBrace?
    ensures if depth == 1 && braces[a].at in named
            then Scanned(braces, named, i + 1, depth - 1, a, found + [Span(braces[a].at + 1, braces[i].at)])
            else Scanned(braces, named, i + 1, depth - 1, a, found)
  {
    FoundNext(braces, named, i, found, a);
  }

  /** `functions`: exactly the top-level bodies whose brace follows a function's parameters
      (`named`), in order and disjoint. */
  method Functions(braces: seq<Brace>, named: set<nat>) returns (found: seq<Span>)
    requires Ascending(braces)
    ensures Apart(found)
    ensures BodiesFound(braces, named, |braces|, found)
  {
    found := [];
    var depth, openAt: nat := 0, 0;
    ghost var a: nat := 0;
    for i := 0 to |braces|
      invariant Scanned(braces, named, i, depth, a, found)
      invariant depth > 0 ==> openAt == braces[a].at
    {
      if braces[i].OpenBrace? {
        ScanOpen(braces, named, i, depth, a, found);
        if depth == 0 {
          openAt, a := braces[i].at, i;
        }
        depth := depth + 1;
      } else {
        ScanClose(braces, named, i, depth, a, found);
        depth := depth - 1;
        if depth == 0 && openAt in named {
          found := found + [Span(openAt + 1, braces[i].at)];
        }
      }
    }
  }

  // ---------- Matching parentheses

  /** An atomic operation: where its name starts, its opening parenthesis, and its direction. */
  datatype Op = Op(start: nat, open: nat, add: bool)

  function Parens(source: string, open: nat, k: nat): int
    requires k <= |source|
  {
    if k <= open then 0
    else Parens(source, open, k - 1) + if source[k - 1] == '(' then 1 else if source[k - 1] == ')' then -1 else 0
  }

  /** The parenthesis at `open` is closed just before `end`, and not earlier. */
  ghost predicate Matches(source: string, open: nat, end: nat) {
    open < end <= |source| && Parens(source, open, end) == 0 && forall k :: open < k < end ==> Parens(source, open, k) != 0
  }

  /** Where an operation ends, if it does. */
  ghost function EndOf(source: string, open: nat): (end: nat)
    ensures forall e :: Matches(source, open, e) ==> e == end
  {
    if e: nat :| Matches(source, open, e) then e else 0
  }

  ghost predicate Balanced(source: string, open: nat, hi: nat) {
    Matches(source, open, EndOf(source, open)) && EndOf(source, open) <= hi
  }

  /** `match_end`, which fails when the parenthesis is not closed before `hi`. */
  method MatchEnd(source: string, open: nat, hi: nat) returns (ok: bool, end: nat)
    requires open < hi <= |source| && source[open] == '('
    ensures ok <==> Balanced(source, open, hi)
    ensures ok ==> Matches(source, open, end) && end <= hi && end == EndOf(source, open)
  {
    var depth := 0;
    end := open;
    while end < hi
      invariant open <= end <= hi && depth == Parens(source, open, end)
      invariant forall k :: open < k <= end ==> Parens(source, open, k) > 0
    {
      var c := source[end];
      end := end + 1;
      if c == '(' {
        depth := depth + 1;
      } else if c == ')' {
        depth := depth - 1;
        if depth == 0 {
          assert Matches(source, open, end);
          return true, end;
        }
      }
    }
    return false, end;
  }

  // ---------- Wrapping the atomic operations of one body

  /** A piece of the rewritten program: copied from the source, or put in. */
  datatype Fragment = Kept(text: string) | Inserted(text: string)

  function Contribution(piece: Fragment): string {
    if piece.Kept? then piece.text else ""
  }

  function ErasedUpTo(pieces: seq<Fragment>, n: nat): string
    requires n <= |pieces|
  {
    if n == 0 then "" else ErasedUpTo(pieces, n - 1) + Contribution(pieces[n - 1])
  }

  /** The text without what was put in. */
  function Erased(pieces: seq<Fragment>): string {
    ErasedUpTo(pieces, |pieces|)
  }

  lemma {:induction false} ErasedPrefix(a: seq<Fragment>, b: seq<Fragment>, n: nat)
    requires n <= |a|
    ensures ErasedUpTo(a + b, n) == ErasedUpTo(a, n)
  {
    if n > 0 {
      ErasedPrefix(a, b, n - 1);
    }
  }

  lemma ErasedAppend(pieces: seq<Fragment>, more: Fragment)
    ensures Erased(pieces + [more]) == Erased(pieces) + Contribution(more)
  {
    ErasedPrefix(pieces, [more], |pieces|);
  }

  lemma {:induction false} ErasedConcat(a: seq<Fragment>, b: seq<Fragment>)
    ensures Erased(a + b) == Erased(a) + Erased(b)
    decreases |b|
  {
    if b == [] {
      assert a + b == a && Erased(a) + "" == Erased(a);
    } else {
      var front, last := b[..|b| - 1], b[|b| - 1];
      ErasedConcat(a, front);
      ErasedAppend(a + front, last);
      ErasedAppend(front, last);
      assert front + [last] == b && (a + front) + [last] == a + b;
      Associative(Erased(a), Erased(front), Contribution(last));
    }
  }

  /** A Python slice: empty when it would end before it starts. */
  function Slice(s: string, lo: nat, hi: nat): string {
    if lo <= hi <= |s| then s[lo..hi] else ""
  }

  const KINDS: seq<string> := ["record", "list", "union", "string", "other"]

  type Kind = k: nat | k < 5

  /** The kinds of reference counts, by the prefix of the function they are in. */
  function KindOf(name: string): Kind
  {
    if "blorp_" + KINDS[0] <= name then 0
    else if "blorp_" + KINDS[1] <= name then 1
    else if "blorp_" + KINDS[2] <= name then 2
    else if "blorp_" + KINDS[3] <= name then 3
    else 4
  }

  const BEFORE := "(blorp_rc_kind_counts["
  const BEHIND := "]++,"

  /** The text put in before an operation. */
  function Opening(kind: Kind, add: bool): string {
    BEFORE + [(('0' as int) + 2 * kind + if add then 0 else 1) as char] + BEHIND
  }

  ghost function Wrapped(source: string, cursor: nat, op: Op, kind: Kind): seq<Fragment>
  {
    [Kept(Slice(source, cursor, op.start)), Inserted(Opening(kind, op.add)),
     Kept(Slice(source, op.start, EndOf(source, op.open))), Inserted(")")]
  }

  lemma ErasedWrapped(source: string, cursor: nat, op: Op, kind: Kind)
    ensures Erased(Wrapped(source, cursor, op, kind))
         == Slice(source, cursor, op.start) + Slice(source, op.start, EndOf(source, op.open))
  {
    var w := Wrapped(source, cursor, op, kind);
    assert ErasedUpTo(w, 1) == "" + Slice(source, cursor, op.start);
    assert ErasedUpTo(w, 3) == ErasedUpTo(w, 2) + Slice(source, op.start, EndOf(source, op.open));
  }

  /** The operations of one body, in order and closed before the body ends. */
  ghost predicate InOrder(ops: seq<Op>) {
    forall i, j :: 0 <= i < j < |ops| ==> ops[i].start < ops[j].start
  }

  ghost predicate Lies(source: string, body: Span, op: Op) {
    body.start <= op.start < op.open < body.end <= |source| && source[op.open] == '('
  }

  ghost predicate Fit(source: string, body: Span, ops: seq<Op>) {
    && body.start <= body.end <= |source| && InOrder(ops)
    && forall i :: 0 <= i < |ops| ==> Lies(source, body, ops[i])
  }

  /** The first n operations are closed before the body ends. */
  ghost predicate Closed(source: string, body: Span, ops: seq<Op>, n: nat)
    requires n <= |ops|
  {
    n > 0 ==> Closed(source, body, ops, n - 1) && Balanced(source, ops[n - 1].open, body.end)
  }

  ghost function Cursor(source: string, body: Span, ops: seq<Op>, n: nat): nat
    requires n <= |ops|
  {
    if n == 0 then body.start else EndOf(source, ops[n - 1].open)
  }

  /** None of the first n operations starts inside the arguments of the one before it. */
  ghost predicate Flat(source: string, body: Span, ops: seq<Op>, n: nat)
    requires n <= |ops|
  {
    n > 0 ==> Flat(source, body, ops, n - 1) && Cursor(source, body, ops, n - 1) <= ops[n - 1].start
  }

  lemma {:induction false} ClosedMeans(source: string, body: Span, ops: seq<Op>, n: nat)
    requires n <= |ops|
    ensures Closed(source, body, ops, n) <==> forall i :: 0 <= i < n ==> Balanced(source, ops[i].open, body.end)
  {
    if n > 0 {
      ClosedMeans(source, body, ops, n - 1);
    }
  }

  /** Then no operation is nested in any other. */
  lemma {:induction false} FlatMeans(source: string, body: Span, ops: seq<Op>, n: nat)
    requires Fit(source, body, ops) && n <= |ops| && Closed(source, body, ops, n)
    ensures Flat(source, body, ops, n) <==>
              forall i, j :: 0 <= i < j < n ==> EndOf(source, ops[i].open) <= ops[j].start
  {
    if n > 1 {
      FlatMeans(source, body, ops, n - 1);
      assert Lies(source, body, ops[n - 1]) && Lies(source, body, ops[n - 2]);
      if Flat(source, body, ops, n) {
        forall i | 0 <= i < n - 1
          ensures EndOf(source, ops[i].open) <= ops[n - 1].start
        {
          assert i < n - 2 ==> EndOf(source, ops[i].open) <= ops[n - 2].start < ops[n - 1].start;
        }
      }
    } else if n == 1 {
      assert Lies(source, body, ops[0]) && Flat(source, body, ops, 0);
    }
  }

  /** What the loop has put together after n operations. */
  ghost function Woven(source: string, body: Span, ops: seq<Op>, n: nat, kind: Kind): seq<Fragment>
    requires n <= |ops|
  {
    if n == 0 then []
    else Woven(source, body, ops, n - 1, kind) + Wrapped(source, Cursor(source, body, ops, n - 1), ops[n - 1], kind)
  }

  ghost function BodyPieces(source: string, body: Span, ops: seq<Op>, kind: Kind): seq<Fragment>
  {
    Woven(source, body, ops, |ops|, kind) + [Kept(Slice(source, Cursor(source, body, ops, |ops|), body.end))]
  }

  /** `count_atomics`: every operation becomes `(counter,operation)`. It fails when one is not
      closed within the body. */
  method CountAtomics(source: string, body: Span, ops: seq<Op>, kind: Kind) returns (ok: bool, pieces: seq<Fragment>)
    requires Fit(source, body, ops)
    ensures ok <==> Closed(source, body, ops, |ops|)
    ensures ok ==> pieces == BodyPieces(source, body, ops, kind)
  {
    pieces := [];
    var cursor: nat := body.start;
    for i := 0 to |ops|
      invariant pieces == Woven(source, body, ops, i, kind) && cursor == Cursor(source, body, ops, i)
      invariant Closed(source, body, ops, i)
    {
      var op := ops[i];
      assert Lies(source, body, op);
      var closed, end := MatchEnd(source, op.open, body.end);
      if !closed {
        ClosedMeans(source, body, ops, |ops|);
        return false, [];
      }
      pieces := pieces + [Kept(Slice(source, cursor, op.start)), Inserted(Opening(kind, op.add)),
                          Kept(Slice(source, op.start, end)), Inserted(")")];
      cursor := end;
    }
    return true, pieces + [Kept(Slice(source, cursor, body.end))];
  }

  /** The first n operations have been copied, with a surplus if one of them was nested. */
  ghost predicate Copied(source: string, start: nat, cursor: nat, text: string, clean: bool) {
    && start <= cursor <= |source| && |text| >= cursor - start
    && (clean ==> text == source[start..cursor])
    && (!clean ==> |text| > cursor - start)
  }

  lemma CopyNext(source: string, start: nat, cursor: nat, text: string, clean: bool, from: nat, end: nat)
    requires Copied(source, start, cursor, text, clean) && start <= from < end <= |source|
    ensures Copied(source, start, end, text + Slice(source, cursor, from) + Slice(source, from, end),
                   clean && cursor <= from)
  {
    if clean && cursor <= from {
      assert source[start..end] == source[start..cursor] + source[cursor..from] + source[from..end];
    }
  }

  lemma CopyEnd(source: string, start: nat, cursor: nat, text: string, clean: bool, end: nat)
    requires Copied(source, start, cursor, text, clean) && cursor <= end <= |source|
    ensures Copied(source, start, end, text + Slice(source, cursor, end), clean)
  {
    assert source[start..end] == source[start..cursor] + source[cursor..end];
  }

  lemma CopyWrapped(source: string, body: Span, cursor: nat, pieces: seq<Fragment>, clean: bool, op: Op, kind: Kind)
    requires Copied(source, body.start, cursor, Erased(pieces), clean)
    requires Lies(source, body, op) && Balanced(source, op.open, body.end)
    ensures EndOf(source, op.open) <= body.end
    ensures Copied(source, body.start, EndOf(source, op.open), Erased(pieces + Wrapped(source, cursor, op, kind)),
                   clean && cursor <= op.start)
  {
    var end := EndOf(source, op.open);
    ErasedWrapped(source, cursor, op, kind);
    ErasedConcat(pieces, Wrapped(source, cursor, op, kind));
    Associative(Erased(pieces), Slice(source, cursor, op.start), Slice(source, op.start, end));
    CopyNext(source, body.start, cursor, Erased(pieces), clean, op.start, end);
  }

  lemma {:induction false} WovenCopies(source: string, body: Span, ops: seq<Op>, n: nat, kind: Kind)
    requires Fit(source, body, ops) && n <= |ops| && Closed(source, body, ops, n)
    ensures Cursor(source, body, ops, n) <= body.end
    ensures Copied(source, body.start, Cursor(source, body, ops, n), Erased(Woven(source, body, ops, n, kind)),
                   Flat(source, body, ops, n))
    decreases n
  {
    if n > 0 {
      assert Lies(source, body, ops[n - 1]);
      WovenCopies(source, body, ops, n - 1, kind);
      CopyWrapped(source, body, Cursor(source, body, ops, n - 1), Woven(source, body, ops, n - 1, kind),
                  Flat(source, body, ops, n - 1), ops[n - 1], kind);
    }
  }

  /** Erasing what was put in gives the body back if and only if no operation is nested in
      another: a nested one is copied twice. */
  lemma ErasedBody(source: string, body: Span, ops: seq<Op>, kind: Kind)
    requires Fit(source, body, ops) && Closed(source, body, ops, |ops|)
    ensures Copied(source, body.start, body.end, Erased(BodyPieces(source, body, ops, kind)),
                   Flat(source, body, ops, |ops|))
  {
    var n := |ops|;
    var cursor, woven := Cursor(source, body, ops, n), Woven(source, body, ops, n, kind);
    WovenCopies(source, body, ops, n, kind);
    ErasedAppend(woven, Kept(Slice(source, cursor, body.end)));
    CopyEnd(source, body.start, cursor, Erased(woven), Flat(source, body, ops, n), body.end);
  }

  lemma {:induction false} WovenPrefix(source: string, body: Span, ops: seq<Op>, m: nat, n: nat, kind: Kind)
    requires m <= n <= |ops|
    ensures Woven(source, body, ops, m, kind) <= Woven(source, body, ops, n, kind)
    decreases n
  {
    if m < n {
      WovenPrefix(source, body, ops, m, n - 1, kind);
    }
  }

  lemma TextBefore(source: string, body: Span, ops: seq<Op>, kind: Kind, i: nat)
    requires Fit(source, body, ops) && i < |ops|
    requires Closed(source, body, ops, i) && Flat(source, body, ops, i + 1)
    ensures Erased(Woven(source, body, ops, i, kind) + [Kept(Slice(source, Cursor(source, body, ops, i), ops[i].start))])
         == source[body.start..ops[i].start]
  {
    var before, cursor := Woven(source, body, ops, i, kind), Cursor(source, body, ops, i);
    assert Lies(source, body, ops[i]);
    WovenCopies(source, body, ops, i, kind);
    ErasedAppend(before, Kept(Slice(source, cursor, ops[i].start)));
    CopyEnd(source, body.start, cursor, Erased(before), true, ops[i].start);
  }

  lemma BodyPrefix(source: string, body: Span, ops: seq<Op>, kind: Kind, i: nat)
    requires i < |ops|
    ensures Woven(source, body, ops, i, kind) + Wrapped(source, Cursor(source, body, ops, i), ops[i], kind)
         <= BodyPieces(source, body, ops, kind)
  {
    WovenPrefix(source, body, ops, i + 1, |ops|, kind);
    assert Woven(source, body, ops, i + 1, kind) <= BodyPieces(source, body, ops, kind);
  }

  /** At p stands the counter of this operation, the operation and the closing parenthesis. */
  ghost predicate WrapsAt(source: string, pieces: seq<Fragment>, p: nat, op: Op, kind: Kind) {
    && p + 3 <= |pieces|
    && pieces[p] == Inserted(Opening(kind, op.add))
    && pieces[p + 1] == Kept(Slice(source, op.start, EndOf(source, op.open)))
    && pieces[p + 2] == Inserted(")")
  }

  lemma WrappedAfter(source: string, pieces: seq<Fragment>, before: seq<Fragment>, cursor: nat, op: Op, kind: Kind)
    requires before + Wrapped(source, cursor, op, kind) <= pieces
    ensures WrapsAt(source, pieces, |before| + 1, op, kind)
    ensures pieces[..|before| + 1] == before + [Kept(Slice(source, cursor, op.start))]
  {
    var w, p := Wrapped(source, cursor, op, kind), |before| + 1;
    assert pieces[p] == (before + w)[p] && pieces[p + 1] == (before + w)[p + 1] && pieces[p + 2] == (before + w)[p + 2];
    assert pieces[p - 1] == (before + w)[p - 1];
  }

  ghost function WrapIndex(source: string, body: Span, ops: seq<Op>, kind: Kind, i: nat): nat
    requires i < |ops|
  {
    |Woven(source, body, ops, i, kind)| + 1
  }

  /** Every operation is wrapped in its own counter. */
  lemma OperationWrapped(source: string, body: Span, ops: seq<Op>, kind: Kind, i: nat)
    requires i < |ops|
    ensures WrapsAt(source, BodyPieces(source, body, ops, kind), WrapIndex(source, body, ops, kind, i), ops[i], kind)
    ensures BodyPieces(source, body, ops, kind)[..WrapIndex(source, body, ops, kind, i)]
         == Woven(source, body, ops, i, kind) + [Kept(Slice(source, Cursor(source, body, ops, i), ops[i].start))]
  {
    BodyPrefix(source, body, ops, kind, i);
    WrappedAfter(source, BodyPieces(source, body, ops, kind), Woven(source, body, ops, i, kind),
                 Cursor(source, body, ops, i), ops[i], kind);
  }

  /** And in its own place: the text before the counter is what precedes the operation. */
  lemma OperationInPlace(source: string, body: Span, ops: seq<Op>, kind: Kind, i: nat)
    requires Fit(source, body, ops) && i < |ops|
    requires Closed(source, body, ops, i) && Flat(source, body, ops, i + 1)
    ensures WrapIndex(source, body, ops, kind, i) <= |BodyPieces(source, body, ops, kind)| && Lies(source, body, ops[i])
    ensures Erased(BodyPieces(source, body, ops, kind)[..WrapIndex(source, body, ops, kind, i)])
         == source[body.start..ops[i].start]
  {
    OperationWrapped(source, body, ops, kind, i);
    TextBefore(source, body, ops, kind, i);
  }

  // ---------- The whole file

  predicate In(body: Span, at: nat) { body.start <= at < body.end }

  /** The operations that the search finds in one body. */
  function Among(ops: seq<Op>, body: Span): (found: seq<Op>)
    ensures forall op :: op in found <==> op in ops && In(body, op.start)
  {
    if ops == [] then []
    else
      var front, last := ops[..|ops| - 1], ops[|ops| - 1];
      assert ops == front + [last];
      Among(front, body) + if In(body, last.start) then [last] else []
  }

  function CountIn(ops: seq<Op>, body: Span): nat {
    if ops == [] then 0
    else CountIn(ops[..|ops| - 1], body) + if In(body, ops[|ops| - 1].start) then 1 else 0
  }

  lemma {:induction false} AmongCounts(ops: seq<Op>, body: Span)
    ensures |Among(ops, body)| == CountIn(ops, body)
  {
    if ops != [] {
      AmongCounts(ops[..|ops| - 1], body);
    }
  }

  lemma {:induction false} AmongInOrder(ops: seq<Op>, body: Span)
    requires InOrder(ops)
    ensures InOrder(Among(ops, body))
  {
    if ops != [] {
      AmongInOrder(ops[..|ops| - 1], body);
      assert forall x :: x in ops[..|ops| - 1] ==> x.start < ops[|ops| - 1].start;
    }
  }

  ghost predicate Within(source: string, bodies: seq<Span>) {
    Apart(bodies) && forall i :: 0 <= i < |bodies| ==> bodies[i].end <= |source|
  }

  /** The rewritten file up to body n. */
  ghost function FilePieces(source: string, bodies: seq<Span>, kinds: seq<Kind>, ops: seq<Op>, n: nat): seq<Fragment>
    requires n <= |bodies| == |kinds|
  {
    if n == 0 then []
    else
      var body := bodies[n - 1];
      FilePieces(source, bodies, kinds, ops, n - 1)
      + [Kept(Slice(source, FileCursor(bodies, n - 1), body.start))]
      + BodyPieces(source, body, Among(ops, body), kinds[n - 1])
  }

  ghost function WholeFile(source: string, bodies: seq<Span>, kinds: seq<Kind>, ops: seq<Op>): seq<Fragment>
    requires |bodies| == |kinds|
  {
    FilePieces(source, bodies, kinds, ops, |bodies|) + [Kept(Slice(source, FileCursor(bodies, |bodies|), |source|))]
  }

  function FileCursor(bodies: seq<Span>, n: nat): nat
    requires n <= |bodies|
  {
    if n == 0 then 0 else bodies[n - 1].end
  }

  function Sites(bodies: seq<Span>, ops: seq<Op>, n: nat): nat
    requires n <= |bodies|
  {
    if n == 0 then 0 else Sites(bodies, ops, n - 1) + CountIn(ops, bodies[n - 1])
  }

  ghost predicate Fits(source: string, bodies: seq<Span>, ops: seq<Op>) {
    && Within(source, bodies) && InOrder(ops)
    && forall op, body :: op in ops && body in bodies && In(body, op.start) ==> Lies(source, body, op)
  }

  lemma AmongFits(source: string, bodies: seq<Span>, ops: seq<Op>, n: nat)
    requires Fits(source, bodies, ops) && n < |bodies|
    ensures Fit(source, bodies[n], Among(ops, bodies[n]))
  {
    assert bodies[n] in bodies;
    AmongInOrder(ops, bodies[n]);
  }

  ghost predicate BodyClosed(source: string, body: Span, ops: seq<Op>) {
    var found := Among(ops, body);
    Closed(source, body, found, |found|)
  }

  ghost predicate BodyFlat(source: string, body: Span, ops: seq<Op>) {
    var found := Among(ops, body);
    Flat(source, body, found, |found|)
  }

  ghost predicate AllClosed(source: string, bodies: seq<Span>, ops: seq<Op>, n: nat)
    requires n <= |bodies|
  {
    n > 0 ==> AllClosed(source, bodies, ops, n - 1) && BodyClosed(source, bodies[n - 1], ops)
  }

  ghost predicate AllFlat(source: string, bodies: seq<Span>, ops: seq<Op>, n: nat)
    requires n <= |bodies|
  {
    n > 0 ==> AllFlat(source, bodies, ops, n - 1) && BodyFlat(source, bodies[n - 1], ops)
  }

  lemma {:induction false} FileCopies(source: string, bodies: seq<Span>, kinds: seq<Kind>, ops: seq<Op>, n: nat)
    requires n <= |bodies| == |kinds|
    requires Fits(source, bodies, ops) && AllClosed(source, bodies, ops, n)
    ensures Copied(source, 0, FileCursor(bodies, n), Erased(FilePieces(source, bodies, kinds, ops, n)),
                   AllFlat(source, bodies, ops, n))
    decreases n
  {
    if n > 0 {
      FileCopies(source, bodies, kinds, ops, n - 1);
      AmongFits(source, bodies, ops, n - 1);
      CopyBodyPieces(source, FileCursor(bodies, n - 1), FilePieces(source, bodies, kinds, ops, n - 1),
                     AllFlat(source, bodies, ops, n - 1), bodies[n - 1], Among(ops, bodies[n - 1]), kinds[n - 1]);
    }
  }

  lemma CopyBodyPieces(source: string, cursor: nat, pieces: seq<Fragment>, clean: bool, body: Span, ops: seq<Op>, kind: Kind)
    requires Copied(source, 0, cursor, Erased(pieces), clean) && cursor <= body.start
    requires Fit(source, body, ops) && Closed(source, body, ops, |ops|)
    ensures var more := [Kept(Slice(source, cursor, body.start))];
            Copied(source, 0, body.end, Erased(pieces + more + BodyPieces(source, body, ops, kind)),
                   clean && Flat(source, body, ops, |ops|))
  {
    var inner := BodyPieces(source, body, ops, kind);
    ErasedBody(source, body, ops, kind);
    ErasedBoth(pieces, Slice(source, cursor, body.start), inner);
    CopyBody(source, cursor, Erased(pieces), clean, body, Erased(inner), Flat(source, body, ops, |ops|));
  }

  lemma CopyBody(source: string, cursor: nat, text: string, clean: bool, body: Span, inner: string, cleanBody: bool)
    requires Copied(source, 0, cursor, text, clean) && cursor <= body.start
    requires Copied(source, body.start, body.end, inner, cleanBody)
    ensures Copied(source, 0, body.end, text + Slice(source, cursor, body.start) + inner, clean && cleanBody)
  {
    if clean && cleanBody {
      assert source[0..body.end] == source[0..cursor] + source[cursor..body.start] + source[body.start..body.end];
    }
  }

  lemma ErasedBoth(pieces: seq<Fragment>, between: string, body: seq<Fragment>)
    ensures Erased(pieces + [Kept(between)] + body) == Erased(pieces) + between + Erased(body)
  {
    ErasedAppend(pieces, Kept(between));
    ErasedConcat(pieces + [Kept(between)], body);
  }

  // ---------- Refusal

  predicate InSome(bodies: seq<Span>, at: nat) {
    exists body :: body in bodies && In(body, at)
  }

  predicate InFirst(bodies: seq<Span>, n: nat, at: nat)
    requires n <= |bodies|
  {
    n > 0 && (InFirst(bodies, n - 1, at) || In(bodies[n - 1], at))
  }

  lemma {:induction false} InFirstMeans(bodies: seq<Span>, n: nat, at: nat)
    requires n <= |bodies|
    ensures InFirst(bodies, n, at) <==> exists i :: 0 <= i < n && In(bodies[i], at)
  {
    if n > 0 {
      InFirstMeans(bodies, n - 1, at);
    }
  }

  lemma NotInTwo(bodies: seq<Span>, n: nat, at: nat)
    requires Apart(bodies) && n < |bodies|
    ensures !(InFirst(bodies, n, at) && In(bodies[n], at))
  {
    InFirstMeans(bodies, n, at);
  }

  lemma CountNext(ops: seq<Op>, op: Op, body: Span)
    ensures CountIn(ops + [op], body) == CountIn(ops, body) + if In(body, op.start) then 1 else 0
  {
    assert (ops + [op])[..|ops|] == ops;
  }

  /** Bodies are disjoint, so one more operation adds one, or nothing if it is outside. */
  lemma {:induction false} OneMore(bodies: seq<Span>, ops: seq<Op>, op: Op, n: nat)
    requires Apart(bodies) && n <= |bodies|
    ensures Sites(bodies, ops + [op], n) == Sites(bodies, ops, n) + if InFirst(bodies, n, op.start) then 1 else 0
    decreases n
  {
    if n > 0 {
      OneMore(bodies, ops, op, n - 1);
      CountNext(ops, op, bodies[n - 1]);
      NotInTwo(bodies, n - 1, op.start);
    }
  }

  lemma {:induction false} NoSites(bodies: seq<Span>, n: nat)
    requires n <= |bodies|
    ensures Sites(bodies, [], n) == 0
  {
    if n > 0 {
      NoSites(bodies, n - 1);
    }
  }

  /** Fewer operations are wrapped than found exactly when some operation is in no body. */
  lemma {:induction false} SitesShortIff(bodies: seq<Span>, ops: seq<Op>)
    requires Apart(bodies)
    ensures Sites(bodies, ops, |bodies|) <= |ops|
    ensures Sites(bodies, ops, |bodies|) != |ops| <==> exists op :: op in ops && !InSome(bodies, op.start)
    decreases |ops|
  {
    if ops == [] {
      NoSites(bodies, |bodies|);
    } else {
      var front, last := ops[..|ops| - 1], ops[|ops| - 1];
      assert ops == front + [last];
      OneMore(bodies, front, last, |bodies|);
      InFirstMeans(bodies, |bodies|, last.start);
      SitesShortIff(bodies, front);
    }
  }

  /** No operation starts inside the arguments of another. */
  ghost predicate NotNested(source: string, ops: seq<Op>) {
    forall x, y :: x in ops && y in ops && x.start < y.start ==> EndOf(source, x.open) <= y.start
  }

  lemma {:induction false} AllClosedMeans(source: string, bodies: seq<Span>, ops: seq<Op>, n: nat)
    requires Fits(source, bodies, ops) && n <= |bodies|
    ensures AllClosed(source, bodies, ops, n) <==>
              forall i, op :: 0 <= i < n && op in ops && In(bodies[i], op.start) ==>
                Balanced(source, op.open, bodies[i].end)
  {
    if n > 0 {
      AllClosedMeans(source, bodies, ops, n - 1);
      var body := bodies[n - 1];
      var found := Among(ops, body);
      ClosedMeans(source, body, found, |found|);
      assert BodyClosed(source, body, ops) <==>
          forall op :: op in found ==> Balanced(source, op.open, body.end);
    }
  }

  lemma AllClosedIff(source: string, bodies: seq<Span>, ops: seq<Op>)
    requires Fits(source, bodies, ops)
    ensures AllClosed(source, bodies, ops, |bodies|) <==>
              forall op, body :: op in ops && body in bodies && In(body, op.start) ==> Balanced(source, op.open, body.end)
  {
    AllClosedMeans(source, bodies, ops, |bodies|);
  }

  lemma {:induction false} ClosedAt(source: string, bodies: seq<Span>, ops: seq<Op>, n: nat, i: nat)
    requires i < n <= |bodies| && AllClosed(source, bodies, ops, n)
    ensures BodyClosed(source, bodies[i], ops)
  {
    if i < n - 1 {
      ClosedAt(source, bodies, ops, n - 1, i);
    }
  }

  lemma {:induction false} AllFlatMeans(source: string, bodies: seq<Span>, ops: seq<Op>, n: nat)
    requires Fits(source, bodies, ops) && n <= |bodies| && AllClosed(source, bodies, ops, n)
    ensures AllFlat(source, bodies, ops, n) <==> forall i :: 0 <= i < n ==> NotNested(source, Among(ops, bodies[i]))
  {
    if n > 0 {
      AllFlatMeans(source, bodies, ops, n - 1);
      BodyFlatMeans(source, bodies, ops, n - 1);
    }
  }

  lemma PairwiseMeans(source: string, ops: seq<Op>)
    requires InOrder(ops)
    ensures NotNested(source, ops) <==>
              forall i, j :: 0 <= i < j < |ops| ==> EndOf(source, ops[i].open) <= ops[j].start
  {
    if forall i, j :: 0 <= i < j < |ops| ==> EndOf(source, ops[i].open) <= ops[j].start {
      forall x, y | x in ops && y in ops && x.start < y.start
        ensures EndOf(source, x.open) <= y.start
      {
        var i :| 0 <= i < |ops| && ops[i] == x;
        var j :| 0 <= j < |ops| && ops[j] == y;
        assert i < j;
      }
    }
  }

  lemma BodyFlatMeans(source: string, bodies: seq<Span>, ops: seq<Op>, n: nat)
    requires Fits(source, bodies, ops) && n < |bodies| && BodyClosed(source, bodies[n], ops)
    ensures BodyFlat(source, bodies[n], ops) <==> NotNested(source, Among(ops, bodies[n]))
  {
    var found := Among(ops, bodies[n]);
    AmongFits(source, bodies, ops, n);
    FlatMeans(source, bodies[n], found, |found|);
    PairwiseMeans(source, found);
  }

  /** When every operation is in some body, being nested is a matter of single bodies. */
  lemma AllInBodies(source: string, bodies: seq<Span>, ops: seq<Op>)
    requires Fits(source, bodies, ops) && AllClosed(source, bodies, ops, |bodies|)
    requires forall op :: op in ops ==> InSome(bodies, op.start)
    ensures AllFlat(source, bodies, ops, |bodies|) <==> NotNested(source, ops)
  {
    AllFlatMeans(source, bodies, ops, |bodies|);
    if AllFlat(source, bodies, ops, |bodies|) {
      forall x, y | x in ops && y in ops && x.start < y.start
        ensures EndOf(source, x.open) <= y.start
      {
        AllClosedMeans(source, bodies, ops, |bodies|);
        var i :| 0 <= i < |bodies| && In(bodies[i], x.start);
        var j :| 0 <= j < |bodies| && In(bodies[j], y.start);
        assert x in Among(ops, bodies[i]) && y in Among(ops, bodies[j]);
        assert Balanced(source, x.open, bodies[i].end);
      }
    }
  }

  lemma FileEnds(source: string, bodies: seq<Span>, kinds: seq<Kind>, ops: seq<Op>)
    requires Fits(source, bodies, ops) && AllClosed(source, bodies, ops, |bodies|)
    requires |bodies| == |kinds|
    ensures Erased(WholeFile(source, bodies, kinds, ops)) == source <==> AllFlat(source, bodies, ops, |bodies|)
  {
    var n := |bodies|;
    var pieces, cursor := FilePieces(source, bodies, kinds, ops, n), FileCursor(bodies, n);
    FileCopies(source, bodies, kinds, ops, n);
    ErasedAppend(pieces, Kept(Slice(source, cursor, |source|)));
    CopyEnd(source, 0, cursor, Erased(pieces), AllFlat(source, bodies, ops, n), |source|);
    assert source[0..|source|] == source;
  }

  datatype Outcome = Rewritten(pieces: seq<Fragment>) | Unbalanced | Refused

  /** What the two token searches of the source deliver: braces and operations in order, no
      brace inside the matched text of an operation. */
  ghost predicate Tokens(source: string, braces: seq<Brace>, ops: seq<Op>) {
    && Ascending(braces) && InOrder(ops)
    && (forall i :: 0 <= i < |braces| ==> braces[i].at < |source|)
    && (forall op :: op in ops ==> op.start < op.open < |source| && source[op.open] == '(')
    && forall op, i :: op in ops && 0 <= i < |braces| ==> !(op.start <= braces[i].at <= op.open)
  }

  ghost predicate IsFunctionBody(braces: seq<Brace>, names: map<nat, string>, body: Span) {
    IsFunction(braces, names.Keys, |braces|, body)
  }

  lemma FoundFit(source: string, braces: seq<Brace>, names: map<nat, string>, ops: seq<Op>, bodies: seq<Span>)
    requires Tokens(source, braces, ops) && Apart(bodies) && BodiesFound(braces, names.Keys, |braces|, bodies)
    ensures Fits(source, bodies, ops)
    ensures forall body :: body in bodies ==> body.start > 0 && body.start - 1 in names
  {
    forall body | body in bodies
      ensures body.end <= |source| && body.start > 0 && body.start - 1 in names
      ensures forall op :: op in ops && In(body, op.start) ==> op.open < body.end
    {
      assert IsFunction(braces, names.Keys, |braces|, body);
      var a: nat, b: nat :| IsBody(braces, a, b) && braces[a].at in names && body == Span(braces[a].at + 1, braces[b].at);
      assert forall op :: op in ops ==> !(op.start <= braces[b].at <= op.open);
    }
  }

  ghost predicate KindsRight(bodies: seq<Span>, names: map<nat, string>, kinds: seq<Kind>) {
    && |kinds| == |bodies|
    && forall i :: 0 <= i < |bodies| ==>
         bodies[i].start > 0 && bodies[i].start - 1 in names && kinds[i] == KindOf(names[bodies[i].start - 1])
  }

  /** The loop of `rewrite` over the bodies. */
  method Weave(source: string, bodies: seq<Span>, names: map<nat, string>, ops: seq<Op>, ghost kinds: seq<Kind>)
    returns (ok: bool, pieces: seq<Fragment>, wrapped: nat)
    requires Fits(source, bodies, ops) && KindsRight(bodies, names, kinds)
    ensures ok <==> AllClosed(source, bodies, ops, |bodies|)
    ensures ok ==> wrapped == Sites(bodies, ops, |bodies|) && pieces == WholeFile(source, bodies, kinds, ops)
  {
    pieces, wrapped := [], 0;
    var cursor: nat := 0;
    for i := 0 to |bodies|
      invariant wrapped == Sites(bodies, ops, i) && cursor == FileCursor(bodies, i)
      invariant AllClosed(source, bodies, ops, i)
      invariant pieces == FilePieces(source, bodies, kinds, ops, i)
    {
      AmongFits(source, bodies, ops, i);
      var inner := Among(ops, bodies[i]);
      AmongCounts(ops, bodies[i]);
      var closed, more := CountAtomics(source, bodies[i], inner, KindOf(names[bodies[i].start - 1]));
      if !closed {
        if AllClosed(source, bodies, ops, |bodies|) {
          ClosedAt(source, bodies, ops, |bodies|, i);
        }
        return false, [], 0;
      }
      pieces := pieces + [Kept(Slice(source, cursor, bodies[i].start))] + more;
      wrapped := wrapped + |inner|;
      cursor := bodies[i].end;
    }
    return true, pieces + [Kept(Slice(source, cursor, |source|))], wrapped;
  }

  /** `rewrite` in kinds mode. It fails exactly when an operation in a function body is not
      closed there; otherwise the result is refused exactly when an operation lies outside
      every function body. What was put in can be erased to give the source back if and only
      if no operation is nested in another. */
  method Rewrite(source: string, braces: seq<Brace>, names: map<nat, string>, ops: seq<Op>)
    returns (r: Outcome, ghost bodies: seq<Span>, ghost kinds: seq<Kind>)
    requires Tokens(source, braces, ops)
    ensures Apart(bodies) && forall body :: body in bodies <==> IsFunctionBody(braces, names, body)
    ensures r.Unbalanced? <==>
              exists op, body :: op in ops && IsFunctionBody(braces, names, body) && In(body, op.start)
                                 && !Balanced(source, op.open, body.end)
    ensures !r.Unbalanced? ==>
              (r.Refused? <==>
                 exists op :: op in ops && forall body :: IsFunctionBody(braces, names, body) ==> !In(body, op.start))
    ensures r.Rewritten? ==> (Erased(r.pieces) == source <==> NotNested(source, ops))
    ensures KindsRight(bodies, names, kinds)
    ensures r.Rewritten? ==> r.pieces == WholeFile(source, bodies, kinds, ops)
  {
    var found := Functions(braces, names.Keys);
    bodies := found;
    FoundFit(source, braces, names, ops, found);
    kinds := seq(|found|, i requires 0 <= i < |found| => KindOf(names[found[i].start - 1]));
    var ok, pieces, wrapped := Weave(source, found, names, ops, kinds);
    AllClosedIff(source, found, ops);
    if !ok {
      return Unbalanced, bodies, kinds;
    }
    SitesShortIff(found, ops);
    if wrapped != |ops| {
      return Refused, bodies, kinds;
    }
    AllInBodies(source, found, ops);
    FileEnds(source, found, kinds, ops);
    return Rewritten(pieces), bodies, kinds;
  }

  // ---------- What the report says of an operation

  /** The kind that the scripts read off a function's name: the first whose prefix it has. */
  function KindName(name: string, from: nat): string
    requires from <= 4
    decreases 4 - from
  {
    if from == 4 then "other"
    else if "blorp_" + KINDS[from] <= name then KINDS[from]
    else KindName(name, from + 1)
  }

  lemma KindIsNamed(name: string)
    ensures KINDS[KindOf(name)] == KindName(name, 0)
  {
    assert KindName(name, 3) == if "blorp_" + KINDS[3] <= name then KINDS[3] else KINDS[4];
    assert KindName(name, 2) == if "blorp_" + KINDS[2] <= name then KINDS[2] else KindName(name, 3);
    assert KindName(name, 1) == if "blorp_" + KINDS[1] <= name then KINDS[1] else KindName(name, 2);
  }

  /** The counter that inserted text bumps when it runs. */
  function CounterIn(text: string): Option<nat> {
    if |text| == |BEFORE| + 1 + |BEHIND| && BEFORE <= text && text[|BEFORE| + 1..] == BEHIND && '0' <= text[|BEFORE|] <= '9'
    then Some(text[|BEFORE|] as int - '0' as int) else None
  }

  datatype Line = Line(kind: string, direction: string, count: nat)

  function ReportLine(counts: seq<nat>, k: nat, d: nat): Line
    requires |counts| == 10 && k < 5 && d < 2
  {
    Line(KINDS[k], if d == 1 then "dec" else "inc", counts[2 * k + d])
  }

  /** `blorp_rc_report`: one line for each kind and direction. */
  method Report(counts: array<nat>) returns (lines: seq<Line>)
    requires counts.Length == 10
    ensures |lines| == 10 && forall k, d :: 0 <= k < 5 && 0 <= d < 2 ==> lines[2 * k + d] == ReportLine(counts[..], k, d)
  {
    lines := [];
    for k := 0 to 5
      invariant |lines| == 2 * k
      invariant forall j, d :: 0 <= j < k && 0 <= d < 2 ==> lines[2 * j + d] == ReportLine(counts[..], j, d)
    {
      for d := 0 to 2
        invariant |lines| == 2 * k + d
        invariant forall j, e :: 0 <= j < k && 0 <= e < 2 ==> lines[2 * j + e] == ReportLine(counts[..], j, e)
        invariant forall e :: 0 <= e < d ==> lines[2 * k + e] == ReportLine(counts[..], k, e)
      {
        lines := lines + [Line(KINDS[k], if d == 1 then "dec" else "inc", counts[2 * k + d])];
      }
    }
  }

  /** An operation that runs adds one to the line of its function's kind and its own direction,
      and to no other. */
  lemma OperationReported(name: string, add: bool, counts: seq<nat>)
    requires |counts| == 10
    ensures var i := CounterIn(Opening(KindOf(name), add));
            && i.Some? && i.value < 10
            && forall k, d :: 0 <= k < 5 && 0 <= d < 2 ==>
                 var line, later := ReportLine(counts, k, d), ReportLine(counts[i.value := counts[i.value] + 1], k, d);
                 if line.kind == KindName(name, 0) && line.direction == (if add then "inc" else "dec")
                 then later == line.(count := line.count + 1) else later == line
  {
    KindIsNamed(name);
    var text, n := Opening(KindOf(name), add), 2 * KindOf(name) + if add then 0 else 1;
    assert text[|BEFORE|] == (('0' as int) + n) as char;
    assert text[|BEFORE| + 1..] == BEHIND;
    assert CounterIn(text) == Some(n);
    forall k, d | 0 <= k < 5 && 0 <= d < 2
      ensures ReportLine(counts[n := counts[n] + 1], k, d) ==
                if KINDS[k] == KINDS[KindOf(name)] && d == (if add then 0 else 1)
                then ReportLine(counts, k, d).(count := counts[n] + 1) else ReportLine(counts, k, d)
    {
      KindsDiffer(k, KindOf(name));
    }
  }

  lemma KindsDiffer(k: Kind, j: Kind)
    ensures KINDS[k] == KINDS[j] <==> k == j
  {
    assert KINDS[0] == "record" && KINDS[1] == "list" && KINDS[2] == "union" && KINDS[3] == "string" && KINDS[4] == "other";
    assert |KINDS[0]| == 6 && |KINDS[1]| == 4 && |KINDS[2]| == 5 && |KINDS[3]| == 6 && |KINDS[4]| == 5;
    assert KINDS[0][0] == 'r' && KINDS[3][0] == 's' && KINDS[2][0] == 'u' && KINDS[4][0] == 'o';
  }
}
