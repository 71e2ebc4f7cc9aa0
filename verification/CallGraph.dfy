/** `inclusive_samples` of blorp/scripts/attribution/report.py: a call graph, listed one node
    per line and indented by depth, folded with a stack into the samples of each function. */
module CallGraph {
  import opened Options

  datatype Line = Line(indent: nat, count: nat, symbol: string)

  datatype Frame = Frame(indent: nat, symbol: string)

  // ---------- What the listing means

  /** Line j is an ancestor of line i: everything from j down to i is indented deeper than j. */
  predicate Ancestor(lines: seq<Line>, j: nat, i: nat) {
    j < i < |lines| && forall k :: j < k <= i ==> lines[k].indent > lines[j].indent
  }

  /** No ancestor of line i has symbol f. */
  predicate NotUnder(lines: seq<Line>, f: string, i: nat) {
    forall j: nat :: j < i && Ancestor(lines, j, i) ==> lines[j].symbol != f
  }

  /** The samples of f, counted once per path: over the first n lines, those labelled f that
      are not below another f. */
  function Outermost(lines: seq<Line>, f: string, n: nat): nat
    requires n <= |lines|
  {
    if n == 0 then 0
    else
      Outermost(lines, f, n - 1)
      + if lines[n - 1].symbol == f && NotUnder(lines, f, n - 1) then lines[n - 1].count else 0
  }

  ghost predicate Occurs(lines: seq<Line>, f: string, n: nat)
    requires n <= |lines|
  {
    exists i :: 0 <= i < n && lines[i].symbol == f
  }

  // ---------- The stack

  /** `chain` lists line i and its ancestors, outermost first. */
  ghost predicate IsChain(lines: seq<Line>, i: nat, chain: seq<nat>) {
    && i < |lines|
    && (forall x, y :: 0 <= x < y < |chain| ==> chain[x] < chain[y])
    && (forall j: nat :: j in chain <==> j == i || Ancestor(lines, j, i))
  }

  /** The stack holds the frames of the lines in `chain`. */
  ghost predicate Holds(lines: seq<Line>, stack: seq<Frame>, chain: seq<nat>) {
    && |stack| == |chain|
    && forall x :: 0 <= x < |chain| ==>
         chain[x] < |lines| && stack[x] == Frame(lines[chain[x]].indent, lines[chain[x]].symbol)
  }

  /** The stack after the first i lines is exactly the last line's ancestor chain. */
  ghost predicate StackIsChain(lines: seq<Line>, i: nat, stack: seq<Frame>, chain: seq<nat>) {
    Holds(lines, stack, chain) && if i == 0 then chain == [] else IsChain(lines, i - 1, chain)
  }

  /** Indentation increases along a chain. */
  lemma ChainDeepens(lines: seq<Line>, i: nat, chain: seq<nat>, x: nat, y: nat)
    requires IsChain(lines, i, chain) && x < y < |chain|
    ensures chain[x] < chain[y] < |lines| && lines[chain[x]].indent < lines[chain[y]].indent
  {
    assert chain[x] in chain && chain[y] in chain;
  }

  /** Popping every frame at least as deep as line i leaves exactly its ancestors. */
  lemma PoppedChain(lines: seq<Line>, i: nat, chain: seq<nat>, kept: nat)
    requires i < |lines| && kept <= |chain|
    requires if i == 0 then chain == [] else IsChain(lines, i - 1, chain)
    requires forall x :: 0 <= x < |chain| ==> chain[x] < i
    requires forall x :: kept <= x < |chain| ==> lines[chain[x]].indent >= lines[i].indent
    requires kept > 0 ==> lines[chain[kept - 1]].indent < lines[i].indent
    ensures forall j: nat :: j in chain[..kept] <==> Ancestor(lines, j, i)
    ensures IsChain(lines, i, chain[..kept] + [i])
  {
    forall j: nat
      ensures j in chain[..kept] <==> Ancestor(lines, j, i)
    {
      if j in chain[..kept] {
        var x :| 0 <= x < kept && chain[x] == j;
        assert j in chain;
        if x < kept - 1 {
          ChainDeepens(lines, i - 1, chain, x, kept - 1);
        }
        assert lines[j].indent < lines[i].indent;
      }
      if Ancestor(lines, j, i) {
        assert j in chain;
        var x :| 0 <= x < |chain| && chain[x] == j;
        assert x < kept;
      }
    }
  }

  /** `inclusive` is right for the first n lines. */
  ghost predicate Tallied(lines: seq<Line>, inclusive: map<string, nat>, n: nat)
    requires n <= |lines|
  {
    && (forall f :: f in inclusive <==> Occurs(lines, f, n))
    && (forall f :: f in inclusive ==> inclusive[f] == Outermost(lines, f, n))
  }

  function Charge(inclusive: map<string, nat>, line: Line): map<string, nat> {
    inclusive[line.symbol := (if line.symbol in inclusive then inclusive[line.symbol] else 0) + line.count]
  }

  lemma TalliedNext(lines: seq<Line>, inclusive: map<string, nat>, i: nat)
    requires i < |lines| && Tallied(lines, inclusive, i)
    ensures NotUnder(lines, lines[i].symbol, i) ==> Tallied(lines, Charge(inclusive, lines[i]), i + 1)
    ensures !NotUnder(lines, lines[i].symbol, i) ==> Tallied(lines, inclusive, i + 1)
  {
    OccursNext(lines, inclusive.Keys, i);
    FirstSightings(lines, lines[i].symbol, i);
    if !NotUnder(lines, lines[i].symbol, i) {
      var j: nat :| j < i && Ancestor(lines, j, i) && lines[j].symbol == lines[i].symbol;
      assert Occurs(lines, lines[i].symbol, i);
      assert inclusive.Keys + {lines[i].symbol} == inclusive.Keys;
    } else {
      assert Charge(inclusive, lines[i]).Keys == inclusive.Keys + {lines[i].symbol};
    }
  }

  method PopDeeper(lines: seq<Line>, i: nat, full: seq<Frame>, ghost chain: seq<nat>) returns (stack: seq<Frame>)
    requires i < |lines| && Holds(lines, full, chain)
    ensures |stack| <= |full| && stack == full[..|stack|]
    ensures forall x :: |stack| <= x < |full| ==> full[x].indent >= lines[i].indent
    ensures stack != [] ==> stack[|stack| - 1].indent < lines[i].indent
  {
    stack := full;
    while stack != [] && stack[|stack| - 1].indent >= lines[i].indent
      invariant |stack| <= |full| && stack == full[..|stack|]
      invariant forall x :: |stack| <= x < |full| ==> full[x].indent >= lines[i].indent
      decreases |stack|
    {
      stack := stack[..|stack| - 1];
    }
  }

  predicate OnStack(stack: seq<Frame>, f: string) {
    exists x :: 0 <= x < |stack| && stack[x].symbol == f
  }

  /** Pop what is not above line i, and push it: the stack is again the line's chain. */
  method PushLine(lines: seq<Line>, i: nat, stack: seq<Frame>, ghost chain: seq<nat>)
    returns (above: seq<Frame>, after: seq<Frame>, ghost longer: seq<nat>)
    requires i < |lines| && StackIsChain(lines, i, stack, chain)
    requires forall x :: 0 <= x < |chain| ==> chain[x] < i
    ensures StackIsChain(lines, i + 1, after, longer)
    ensures forall x :: 0 <= x < |longer| ==> longer[x] < i + 1
    ensures NotUnder(lines, lines[i].symbol, i) <==> !OnStack(above, lines[i].symbol)
  {
    above := PopDeeper(lines, i, stack, chain);
    PoppedChain(lines, i, chain, |above|);
    longer := chain[..|above|];
    SeenAbove(lines, i, above, longer, lines[i].symbol);
    after, longer := above + [Frame(lines[i].indent, lines[i].symbol)], longer + [i];
  }

  method InclusiveSamples(lines: seq<Line>) returns (inclusive: map<string, nat>)
    ensures forall f :: f in inclusive <==> Occurs(lines, f, |lines|)
    ensures forall f :: f in inclusive ==> inclusive[f] == Outermost(lines, f, |lines|)
  {
    inclusive := map[];
    var stack: seq<Frame> := [];
    ghost var chain: seq<nat> := [];
    for i := 0 to |lines|
      invariant StackIsChain(lines, i, stack, chain)
      invariant forall x :: 0 <= x < |chain| ==> chain[x] < i
      invariant Tallied(lines, inclusive, i)
    {
      var above;
      above, stack, chain := PushLine(lines, i, stack, chain);
      TalliedNext(lines, inclusive, i);
      if !OnStack(above, lines[i].symbol) {
        inclusive := Charge(inclusive, lines[i]);
      }
    }
  }

  /** The symbol is on the stack exactly when the line is below another with that symbol. */
  lemma SeenAbove(lines: seq<Line>, i: nat, stack: seq<Frame>, chain: seq<nat>, f: string)
    requires i < |lines| && Holds(lines, stack, chain)
    requires forall j: nat :: j in chain <==> Ancestor(lines, j, i)
    ensures NotUnder(lines, f, i) <==> !OnStack(stack, f)
    ensures !NotUnder(lines, f, i) ==> Occurs(lines, f, i)
  {
    if x :| 0 <= x < |stack| && stack[x].symbol == f {
      assert chain[x] in chain;
      assert Ancestor(lines, chain[x], i);
    }
    if j: nat :| j < i && Ancestor(lines, j, i) && lines[j].symbol == f {
      assert j in chain;
      var x :| 0 <= x < |chain| && chain[x] == j;
      assert stack[x].symbol == f;
    }
  }

  lemma OccursNext(lines: seq<Line>, keys: set<string>, i: nat)
    requires i < |lines|
    requires forall f :: f in keys <==> Occurs(lines, f, i)
    ensures forall f :: f in keys + {lines[i].symbol} <==> Occurs(lines, f, i + 1)
  {
    forall f
      ensures f in keys + {lines[i].symbol} <==> Occurs(lines, f, i + 1)
    {
      if f == lines[i].symbol {
        assert lines[i].symbol == f;
      } else if Occurs(lines, f, i + 1) {
        var k :| 0 <= k < i + 1 && lines[k].symbol == f;
        assert Occurs(lines, f, i);
      }
    }
  }

  lemma {:induction false} FirstSightings(lines: seq<Line>, f: string, n: nat)
    requires n <= |lines|
    ensures !Occurs(lines, f, n) ==> Outermost(lines, f, n) == 0
  {
    if n > 0 && !Occurs(lines, f, n) {
      FirstSightings(lines, f, n - 1);
    }
  }

  // ---------- No function has more samples than the program

  /** The nearest line above, from j down to 0, with less indentation. */
  function ParentFrom(lines: seq<Line>, j: int, indent: nat): Option<nat>
    requires j < |lines|
    decreases j
  {
    if j < 0 then None
    else if lines[j].indent < indent then Some(j)
    else ParentFrom(lines, j - 1, indent)
  }

  function Parent(lines: seq<Line>, i: nat): Option<nat>
    requires i < |lines|
  {
    ParentFrom(lines, i - 1, lines[i].indent)
  }

  lemma {:induction false} ParentFromMeaning(lines: seq<Line>, j: int, indent: nat)
    requires j < |lines|
    ensures match ParentFrom(lines, j, indent)
            case None => forall k :: 0 <= k <= j ==> lines[k].indent >= indent
            case Some(p) => p <= j && lines[p].indent < indent && forall k :: p < k <= j ==> lines[k].indent >= indent
    decreases j
  {
    if j >= 0 && lines[j].indent >= indent {
      ParentFromMeaning(lines, j - 1, indent);
    }
  }

  /** A line's ancestors are its parent and its parent's ancestors. */
  lemma AncestorsAreParents(lines: seq<Line>, j: nat, i: nat)
    requires i < |lines|
    ensures Ancestor(lines, j, i) <==>
              Parent(lines, i).Some? && (j == Parent(lines, i).value || Ancestor(lines, j, Parent(lines, i).value))
    ensures Parent(lines, i).Some? ==> Parent(lines, i).value < i
  {
    ParentFromMeaning(lines, i - 1, lines[i].indent);
  }

  /** Not labelled f and not below an f. */
  predicate Clear(lines: seq<Line>, f: string, i: nat) {
    i < |lines| && lines[i].symbol != f && NotUnder(lines, f, i)
  }

  lemma NotUnderByParent(lines: seq<Line>, f: string, i: nat)
    requires i < |lines|
    ensures NotUnder(lines, f, i) <==> Parent(lines, i).None? || Clear(lines, f, Parent(lines, i).value)
  {
    forall j: nat
      ensures Ancestor(lines, j, i) <==>
                Parent(lines, i).Some? && (j == Parent(lines, i).value || Ancestor(lines, j, Parent(lines, i).value))
      ensures Parent(lines, i).Some? ==> Parent(lines, i).value < i
    {
      AncestorsAreParents(lines, j, i);
    }
    if Parent(lines, i).Some? {
      var p := Parent(lines, i).value;
      assert Ancestor(lines, p, i);
    }
  }

  function RootTotal(lines: seq<Line>, n: nat): nat
    requires n <= |lines|
  {
    if n == 0 then 0
    else RootTotal(lines, n - 1) + if Parent(lines, n - 1).None? then lines[n - 1].count else 0
  }

  function ChildTotal(lines: seq<Line>, p: nat, n: nat): nat
    requires n <= |lines|
  {
    if n == 0 then 0
    else ChildTotal(lines, p, n - 1) + if Parent(lines, n - 1) == Some(p) then lines[n - 1].count else 0
  }

  /** The children of each node have no more samples than the node. */
  ghost predicate CountsNest(lines: seq<Line>) {
    forall p: nat :: p < |lines| ==> ChildTotal(lines, p, |lines|) <= lines[p].count
  }

  function ClearTotal(lines: seq<Line>, f: string, n: nat): nat
    requires n <= |lines|
  {
    if n == 0 then 0
    else ClearTotal(lines, f, n - 1) + if Clear(lines, f, n - 1) then lines[n - 1].count else 0
  }

  /** The children, among the first n lines, of the clear nodes among the first m. */
  function ChildrenOfClear(lines: seq<Line>, f: string, m: nat, n: nat): nat
    requires n <= |lines|
  {
    if m == 0 then 0
    else ChildrenOfClear(lines, f, m - 1, n) + if Clear(lines, f, m - 1) then ChildTotal(lines, m - 1, n) else 0
  }

  lemma {:induction false} ChildrenOfClearNext(lines: seq<Line>, f: string, m: nat, n: nat)
    requires 0 < n <= |lines|
    ensures var parent := Parent(lines, n - 1);
            ChildrenOfClear(lines, f, m, n)
            == ChildrenOfClear(lines, f, m, n - 1)
               + if parent.Some? && parent.value < m && Clear(lines, f, parent.value) then lines[n - 1].count else 0
    decreases m
  {
    if m > 0 {
      ChildrenOfClearNext(lines, f, m - 1, n);
    }
  }

  lemma {:induction false} ChildrenOfClearNone(lines: seq<Line>, f: string, m: nat)
    ensures ChildrenOfClear(lines, f, m, 0) == 0
  {
    if m > 0 {
      ChildrenOfClearNone(lines, f, m - 1);
    }
  }

  /** Every line that is not below an f is a root or a child of a clear node, and is either an
      outermost f or clear itself. */
  lemma {:induction false} Telescopes(lines: seq<Line>, f: string, n: nat)
    requires n <= |lines|
    ensures Outermost(lines, f, n) + ClearTotal(lines, f, n)
         == RootTotal(lines, n) + ChildrenOfClear(lines, f, |lines|, n)
    decreases n
  {
    if n == 0 {
      ChildrenOfClearNone(lines, f, |lines|);
    } else {
      Telescopes(lines, f, n - 1);
      ChildrenOfClearNext(lines, f, |lines|, n);
      NotUnderByParent(lines, f, n - 1);
      AncestorsAreParents(lines, 0, n - 1);
    }
  }

  lemma {:induction false} ChildrenFit(lines: seq<Line>, f: string, m: nat)
    requires m <= |lines| && CountsNest(lines)
    ensures ChildrenOfClear(lines, f, m, |lines|) <= ClearTotal(lines, f, m)
  {
    if m > 0 {
      ChildrenFit(lines, f, m - 1);
    }
  }

  /** When counts nest, no function's samples exceed the total of the roots. */
  lemma InclusiveWithinTotal(lines: seq<Line>, f: string)
    requires CountsNest(lines)
    ensures Outermost(lines, f, |lines|) <= RootTotal(lines, |lines|)
  {
    Telescopes(lines, f, |lines|);
    ChildrenFit(lines, f, |lines|);
  }
}
