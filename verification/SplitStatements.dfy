/** `split_statements` of blorp/scripts/attribution/instrument_copies.py: a character loop that
    puts each C statement on its own line. What C text consists of is stated first, token by
    token and without a loop; then the loop is compared with it. */
module SplitStatements {
  import opened Options
  import opened Sequences

  // ---------- C text

  datatype Class = Code | Literal | Comment | Directive

  /** source[start..end]. Code and directives are cut into single characters. */
  datatype Token = Token(start: nat, end: nat, class_: Class)

  predicate Separator(c: char) { c == ';' || c == '{' || c == '}' }

  predicate Quote(c: char) { c == '"' || c == '\'' }

  predicate Blank(c: char) { c == ' ' || c == '\t' }

  predicate OpensComment(source: string, i: nat) {
    i + 1 < |source| && source[i] == '/' && source[i + 1] == '*'
  }

  predicate ClosesComment(source: string, i: nat) {
    i + 1 < |source| && source[i] == '*' && source[i + 1] == '/'
  }

  /** A comment's text, searched from `from` on, ends with the first closer. */
  ghost predicate CommentEndsAt(source: string, from: nat, end: nat) {
    from + 2 <= end && ClosesComment(source, end - 2) && forall j :: from <= j < end - 2 ==> !ClosesComment(source, j)
  }

  /** The backslashes directly before k, not looking further back than lo. */
  function Backslashes(source: string, lo: nat, k: nat): nat
    requires k <= |source|
  {
    if lo < k && source[k - 1] == '\\' then 1 + Backslashes(source, lo, k - 1) else 0
  }

  predicate Escaped(source: string, lo: nat, k: nat)
    requires k <= |source|
  {
    Backslashes(source, lo, k) % 2 == 1
  }

  predicate ClosesLiteral(source: string, start: nat, k: nat) {
    start < k < |source| && source[k] == source[start] && !Escaped(source, start + 1, k)
  }

  /** A literal ends with the first quote like its own that is not escaped, or with the text. */
  ghost predicate LiteralEndsAt(source: string, start: nat, end: nat) {
    && start < end <= |source|
    && (forall k :: start < k < end - 1 ==> !ClosesLiteral(source, start, k))
    && (ClosesLiteral(source, start, end - 1) || (end == |source| && !Escaped(source, start + 1, end)))
  }

  predicate IsPlain(source: string, t: Token, c: char) {
    (t.class_.Code? || t.class_.Directive?) && t.start < |source| && source[t.start] == c
  }

  /** Comments and blanks do not end the start of a line. */
  predicate Skips(source: string, t: Token) {
    t.class_.Comment? || IsPlain(source, t, ' ') || IsPlain(source, t, '\t')
  }

  /** Nothing but comments and blanks since the last line break. */
  predicate AtLineStart(source: string, ts: seq<Token>) {
    ts != [] ==>
      var t := ts[|ts| - 1];
      IsPlain(source, t, '\n') || (Skips(source, t) && AtLineStart(source, ts[..|ts| - 1]))
  }

  /** A directive runs from a number sign at the start of a line to the end of that line. */
  predicate InDirective(source: string, ts: seq<Token>) {
    && ts != []
    && var front, t := ts[..|ts| - 1], ts[|ts| - 1];
       && !IsPlain(source, t, '\n')
       && (InDirective(source, front) || (IsPlain(source, t, '#') && AtLineStart(source, front)))
  }

  /** The token t comes next after `before`. A comment's end is searched `skip` characters
      after its start: 2 in C (section 6.4.9 of ISO/IEC 9899:2011), so that it cannot overlap
      the opener. */
  ghost predicate Next(source: string, skip: nat, before: seq<Token>, t: Token) {
    && t.start == End(before) && t.start < t.end <= |source|
    && if OpensComment(source, t.start) then t.class_.Comment? && CommentEndsAt(source, t.start + skip, t.end)
       else if Quote(source[t.start]) then t.class_.Literal? && LiteralEndsAt(source, t.start, t.end)
       else
         && t.end == t.start + 1
         && t.class_ == if InDirective(source, before) || (source[t.start] == '#' && AtLineStart(source, before))
                        then Directive else Code
  }

  /** In positions: some line break, or the beginning, has only comments and blanks after it. */
  lemma {:induction false} LineStartMeans(source: string, ts: seq<Token>)
    ensures AtLineStart(source, ts) <==>
              exists b :: && 0 <= b <= |ts| && (b > 0 ==> IsPlain(source, ts[b - 1], '\n'))
                          && Skipping(source, ts, b)
  {
    if ts == [] {
      assert Skipping(source, ts, 0);
    } else {
      var n := |ts| - 1;
      LineStartMeans(source, ts[..n]);
      assert Skipping(source, ts, |ts|);
      assert forall b :: 0 <= b <= n ==> (Skipping(source, ts, b) <==> Skipping(source, ts[..n], b) && Skips(source, ts[n]));
    }
  }

  ghost predicate Skipping(source: string, ts: seq<Token>, b: nat) {
    forall j :: b <= j < |ts| ==> Skips(source, ts[j])
  }

  /** In positions: a number sign that stands at the start of a line has no line break after it. */
  lemma {:induction false} DirectiveMeans(source: string, ts: seq<Token>)
    ensures InDirective(source, ts) <==>
              exists h :: && 0 <= h < |ts| && IsPlain(source, ts[h], '#') && AtLineStart(source, ts[..h])
                          && NoLineBreak(source, ts, h)
  {
    if ts != [] {
      var n := |ts| - 1;
      DirectiveMeans(source, ts[..n]);
      assert forall h :: 0 <= h < n ==> ts[..n][..h] == ts[..h];
      assert forall h :: 0 <= h < n ==>
          (NoLineBreak(source, ts, h) <==> NoLineBreak(source, ts[..n], h) && !IsPlain(source, ts[n], '\n'));
      assert NoLineBreak(source, ts, n) <==> !IsPlain(source, ts[n], '\n');
    }
  }

  ghost predicate NoLineBreak(source: string, ts: seq<Token>, h: nat) {
    forall j :: h <= j < |ts| ==> !IsPlain(source, ts[j], '\n')
  }

  function End(ts: seq<Token>): nat {
    if ts == [] then 0 else ts[|ts| - 1].end
  }

  ghost predicate Lexes(source: string, skip: nat, ts: seq<Token>) {
    ts == [] || (Lexes(source, skip, ts[..|ts| - 1]) && Next(source, skip, ts[..|ts| - 1], ts[|ts| - 1]))
  }

  /** No token starts at i: a comment with no end, or a literal with no end in a text whose
      last character is an escaping backslash. */
  ghost predicate Stuck(source: string, skip: nat, i: nat) {
    && i < |source|
    && if OpensComment(source, i) then forall j :: i + skip <= j ==> !ClosesComment(source, j)
       else
         && Quote(source[i]) && Escaped(source, i + 1, |source|)
         && forall k :: i < k < |source| ==> !ClosesLiteral(source, i, k)
  }

  lemma LexesMore(source: string, skip: nat, ts: seq<Token>, t: Token)
    requires Lexes(source, skip, ts)
    ensures Lexes(source, skip, ts + [t]) <==> Next(source, skip, ts, t)
    ensures End(ts + [t]) == t.end
  {
    assert (ts + [t])[..|ts|] == ts;
  }

  lemma {:induction false} LexesAt(source: string, skip: nat, ts: seq<Token>, k: nat)
    requires Lexes(source, skip, ts) && k < |ts|
    ensures Lexes(source, skip, ts[..k]) && Next(source, skip, ts[..k], ts[k])
    decreases |ts|
  {
    if k < |ts| - 1 {
      var front := ts[..|ts| - 1];
      LexesAt(source, skip, front, k);
      assert front[..k] == ts[..k] && front[k] == ts[k];
    }
  }

  lemma NextIsUnique(source: string, skip: nat, before: seq<Token>, t: Token, u: Token)
    requires Next(source, skip, before, t) && Next(source, skip, before, u)
    ensures t == u
  {
    if OpensComment(source, t.start) {
      assert ClosesComment(source, t.end - 2) && ClosesComment(source, u.end - 2);
    } else if Quote(source[t.start]) {
      assert t.end < |source| ==> ClosesLiteral(source, t.start, t.end - 1);
      assert u.end < |source| ==> ClosesLiteral(source, t.start, u.end - 1);
    }
  }

  lemma NextMeansNotStuck(source: string, skip: nat, before: seq<Token>, t: Token)
    requires Next(source, skip, before, t)
    ensures !Stuck(source, skip, End(before))
  {
    if OpensComment(source, t.start) {
      assert ClosesComment(source, t.end - 2);
    } else if Quote(source[t.start]) {
      assert ClosesLiteral(source, t.start, t.end - 1) || (t.end == |source| && !Escaped(source, t.start + 1, t.end));
    }
  }

  /** Two readings of a text agree as far as both go. */
  lemma {:induction false} LexesAgree(source: string, skip: nat, ts: seq<Token>, us: seq<Token>)
    requires Lexes(source, skip, ts) && Lexes(source, skip, us) && |ts| <= |us|
    ensures ts <= us
    decreases |ts|
  {
    if ts != [] {
      var n := |ts| - 1;
      LexesAgree(source, skip, ts[..n], us);
      LexesAt(source, skip, us, n);
      assert us[..n] == ts[..n];
      NextIsUnique(source, skip, ts[..n], ts[n], us[n]);
    }
  }

  /** The reading goes no further: the text is used up, or no token comes next. */
  ghost predicate Finished(source: string, skip: nat, ts: seq<Token>) {
    Lexes(source, skip, ts) && (End(ts) == |source| || Stuck(source, skip, End(ts)))
  }

  lemma FinishedIsUnique(source: string, skip: nat, ts: seq<Token>, us: seq<Token>)
    requires Finished(source, skip, ts) && Finished(source, skip, us)
    ensures ts == us
  {
    if |ts| <= |us| {
      LexesAgree(source, skip, ts, us);
      NothingFollows(source, skip, ts, us);
    } else {
      LexesAgree(source, skip, us, ts);
      NothingFollows(source, skip, us, ts);
    }
  }

  lemma NothingFollows(source: string, skip: nat, ts: seq<Token>, us: seq<Token>)
    requires Finished(source, skip, ts) && Lexes(source, skip, us) && ts <= us
    ensures ts == us
  {
    if |ts| < |us| {
      LexesAt(source, skip, us, |ts|);
      assert us[..|ts|] == ts;
      NextMeansNotStuck(source, skip, ts, us[|ts|]);
    }
  }

  lemma {:induction false} FirstCommentEnd(source: string, from: nat, j: nat) returns (end: nat)
    requires from <= j && ClosesComment(source, j)
    ensures CommentEndsAt(source, from, end)
    decreases j
  {
    if k :| from <= k < j && ClosesComment(source, k) {
      end := FirstCommentEnd(source, from, k);
    } else {
      end := j + 2;
    }
  }

  lemma {:induction false} FirstLiteralEnd(source: string, start: nat, j: nat) returns (end: nat)
    requires ClosesLiteral(source, start, j)
    ensures LiteralEndsAt(source, start, end)
    decreases j
  {
    if k :| start < k < j && ClosesLiteral(source, start, k) {
      end := FirstLiteralEnd(source, start, k);
    } else {
      end := j + 1;
    }
  }

  lemma NextExists(source: string, skip: nat, ts: seq<Token>) returns (t: Token)
    requires End(ts) < |source| && !Stuck(source, skip, End(ts))
    ensures Next(source, skip, ts, t)
  {
    var i := End(ts);
    var end := i + 1;
    if OpensComment(source, i) {
      var j :| i + skip <= j && ClosesComment(source, j);
      end := FirstCommentEnd(source, i + skip, j);
      t := Token(i, end, Comment);
    } else if Quote(source[i]) {
      end := |source|;
      if j :| i < j < |source| && ClosesLiteral(source, i, j) {
        end := FirstLiteralEnd(source, i, j);
      }
      t := Token(i, end, Literal);
    } else if InDirective(source, ts) || (source[i] == '#' && AtLineStart(source, ts)) {
      t := Token(i, end, Directive);
    } else {
      t := Token(i, end, Code);
    }
  }

  /** Every text has one reading that goes no further. */
  lemma {:induction false} ReadingExists(source: string, skip: nat, ts: seq<Token>) returns (us: seq<Token>)
    requires Lexes(source, skip, ts) && End(ts) <= |source|
    ensures Finished(source, skip, us)
    decreases |source| - End(ts)
  {
    if End(ts) < |source| && !Stuck(source, skip, End(ts)) {
      var t := NextExists(source, skip, ts);
      LexesMore(source, skip, ts, t);
      us := ReadingExists(source, skip, ts + [t]);
    } else {
      us := ts;
    }
  }

  lemma SomeReading(source: string, skip: nat)
    ensures exists ts :: Finished(source, skip, ts)
  {
    var ts := ReadingExists(source, skip, []);
  }

  /** The reading of a text. */
  ghost function Reading(source: string, skip: nat): (ts: seq<Token>)
    ensures Finished(source, skip, ts)
  {
    SomeReading(source, skip);
    var ts :| Finished(source, skip, ts);
    ts
  }

  // ---------- Where the loop and C differ

  /** A comment opener whose asterisk could be taken for part of a closer. */
  predicate SlashAfterOpener(source: string, i: nat) {
    OpensComment(source, i) && ClosesComment(source, i + 1)
  }

  ghost predicate NoSlashAfterOpener(source: string, ts: seq<Token>) {
    !SlashAfterOpener(source, End(ts)) && forall k :: 0 <= k < |ts| ==> !SlashAfterOpener(source, ts[k].start)
  }

  lemma SameNext(source: string, before: seq<Token>, t: Token)
    requires !SlashAfterOpener(source, End(before))
    ensures Next(source, 0, before, t) <==> Next(source, 2, before, t)
    ensures Stuck(source, 0, End(before)) <==> Stuck(source, 2, End(before))
  {
    var i := End(before);
    if OpensComment(source, i) {
      assert !ClosesComment(source, i) && !ClosesComment(source, i + 1);
    }
  }

  lemma {:induction false} SameReading(source: string, ts: seq<Token>)
    requires forall k :: 0 <= k < |ts| ==> !SlashAfterOpener(source, ts[k].start)
    ensures Lexes(source, 2, ts) ==> Lexes(source, 0, ts)
    decreases |ts|
  {
    if ts != [] && Lexes(source, 2, ts) {
      var n := |ts| - 1;
      SameReading(source, ts[..n]);
      SameNext(source, ts[..n], ts[n]);
    }
  }

  /** The loop searches a comment's end from its opener (skip 0). It reads a text as C does if
      and only if no comment opener is directly followed by a slash. */
  lemma ReadsAsCIff(source: string)
    ensures Reading(source, 0) == Reading(source, 2) <==> NoSlashAfterOpener(source, Reading(source, 2))
  {
    var loop, c := Reading(source, 0), Reading(source, 2);
    if NoSlashAfterOpener(source, c) {
      SameReading(source, c);
      SameNext(source, c, Token(0, 0, Code));
      FinishedIsUnique(source, 0, loop, c);
    } else if SlashAfterOpener(source, End(c)) {
      assert ClosesComment(source, End(c) + 1);
    } else {
      var k :| 0 <= k < |c| && SlashAfterOpener(source, c[k].start);
      LexesAt(source, 2, c, k);
      assert ClosesComment(source, c[k].start + 1);
      assert !Next(source, 0, c[..k], c[k]);
      if Lexes(source, 0, c) {
        LexesAt(source, 0, c, k);
      }
    }
  }

  // ---------- The output

  predicate Breaks(source: string, t: Token) {
    t.class_.Code? && t.start < |source| && Separator(source[t.start])
  }

  /** The positions of the separators that are code. */
  function BreaksOf(source: string, ts: seq<Token>): set<nat> {
    if ts == [] then {}
    else
      var t := ts[|ts| - 1];
      BreaksOf(source, ts[..|ts| - 1]) + if Breaks(source, t) then {t.start} else {}
  }

  lemma {:induction false} BreaksOfMeans(source: string, ts: seq<Token>, k: nat)
    ensures k in BreaksOf(source, ts) <==> exists t :: t in ts && Breaks(source, t) && t.start == k
  {
    if ts != [] {
      BreaksOfMeans(source, ts[..|ts| - 1], k);
      assert ts == ts[..|ts| - 1] + [ts[|ts| - 1]];
    }
  }

  /** The first n characters, with a newline after each of those separators. */
  function Broken(source: string, breaks: set<nat>, n: nat): string
    requires n <= |source|
  {
    if n == 0 then ""
    else Broken(source, breaks, n - 1) + if n - 1 in breaks then [source[n - 1], '\n'] else [source[n - 1]]
  }

  function Output(source: string, ts: seq<Token>): string {
    Broken(source, BreaksOf(source, ts), |source|)
  }

  lemma {:induction false} BrokenGrows(source: string, breaks: set<nat>, m: nat, n: nat)
    requires m <= n <= |source|
    ensures Broken(source, breaks, m) <= Broken(source, breaks, n)
  {
    if m < n {
      BrokenGrows(source, breaks, m, n - 1);
    }
  }

  /** A separator that is code is the last character of its output line. */
  lemma SeparatorsEndLines(source: string, ts: seq<Token>, k: nat)
    requires k < |source| && k in BreaksOf(source, ts)
    ensures Broken(source, BreaksOf(source, ts), k) + [source[k], '\n'] <= Output(source, ts)
  {
    BrokenGrows(source, BreaksOf(source, ts), k + 1, |source|);
  }

  /** Delete, from the end backwards, the newlines after those separators. */
  function Erase(output: string, breaks: set<nat>, n: nat): string {
    if n == 0 then ""
    else
      var size := if n - 1 in breaks then 2 else 1;
      if |output| < size then ""
      else Erase(output[..|output| - size], breaks, n - 1) + [output[|output| - size]]
  }

  lemma EraseNext(before: string, c: char, breaks: set<nat>, n: nat, text: string)
    requires Erase(before, breaks, n) == text
    ensures Erase(before + (if n in breaks then [c, '\n'] else [c]), breaks, n + 1) == text + [c]
  {
    var output := before + if n in breaks then [c, '\n'] else [c];
    assert output[..|before|] == before && output[|before|] == c;
  }

  /** What is left is the source. */
  lemma {:induction false} EraseUndoesBroken(source: string, breaks: set<nat>, n: nat)
    requires n <= |source|
    ensures Erase(Broken(source, breaks, n), breaks, n) == source[..n]
  {
    if n > 0 {
      EraseUndoesBroken(source, breaks, n - 1);
      var before, text := Broken(source, breaks, n - 1), source[..n - 1];
      EraseNext(before, source[n - 1], breaks, n - 1, text);
      TakeNext(source, n - 1);
      assert Broken(source, breaks, n) == before + if n - 1 in breaks then [source[n - 1], '\n'] else [source[n - 1]];
    }
  }

  lemma TakeNext(source: string, n: nat)
    requires n < |source|
    ensures source[..n + 1] == source[..n] + [source[n]]
  {
  }

  lemma {:induction false} BrokenLocally(source: string, breaks: set<nat>, more: set<nat>, n: nat)
    requires n <= |source| && forall k :: 0 <= k < n ==> (k in breaks <==> k in more)
    ensures Broken(source, breaks, n) == Broken(source, more, n)
  {
    if n > 0 {
      BrokenLocally(source, breaks, more, n - 1);
    }
  }

  lemma {:induction false} Unbroken(source: string, breaks: set<nat>, m: nat, n: nat)
    requires m <= n <= |source| && forall k :: m <= k < n ==> k !in breaks
    ensures Broken(source, breaks, n) == Broken(source, breaks, m) + source[m..n]
  {
    if m < n {
      Unbroken(source, breaks, m, n - 1);
      Associative(Broken(source, breaks, m), source[m..n - 1], [source[n - 1]]);
      assert source[m..n] == source[m..n - 1] + [source[n - 1]];
    }
  }

  lemma {:induction false} BreaksBelow(source: string, ts: seq<Token>)
    requires Lexes(source, 0, ts)
    ensures End(ts) <= |source| && forall k :: k in BreaksOf(source, ts) ==> k < End(ts)
  {
    if ts != [] {
      BreaksBelow(source, ts[..|ts| - 1]);
    }
  }

  // ---------- The loop

  /** The loop's variables. */
  datatype State = State(i: nat, quote: Option<char>, directive: bool, atLineStart: bool)

  /** The loop stands between tokens, or in a literal that began after the tokens `ts`. */
  ghost predicate Reached(source: string, ts: seq<Token>, st: State) {
    && Lexes(source, 0, ts)
    && st.directive == InDirective(source, ts)
    && match st.quote
       case None => End(ts) == st.i <= |source| && st.atLineStart == AtLineStart(source, ts)
       case Some(quote) => InLiteral(source, End(ts), st.i, quote)
  }

  ghost predicate InLiteral(source: string, start: nat, i: nat, quote: char) {
    && start < i <= |source|
    && !OpensComment(source, start) && Quote(quote) && source[start] == quote
    && !Escaped(source, start + 1, i) && forall k :: start < k < i ==> !ClosesLiteral(source, start, k)
  }

  ghost predicate Appended(source: string, ts: seq<Token>, t: Token, us: seq<Token>) {
    && us == ts + [t] && Lexes(source, 0, us) && End(us) == t.end
    && InDirective(source, us) == ((InDirective(source, ts) || t.class_.Directive?) && !IsPlain(source, t, '\n'))
    && AtLineStart(source, us) == (IsPlain(source, t, '\n') || (AtLineStart(source, ts) && Skips(source, t)))
  }

  lemma AppendToken(source: string, ts: seq<Token>, t: Token)
    requires Lexes(source, 0, ts) && Next(source, 0, ts, t)
    ensures Appended(source, ts, t, ts + [t])
  {
    LexesMore(source, 0, ts, t);
    assert (ts + [t])[..|ts|] == ts;
  }

  lemma EscapePassed(source: string, start: nat, i: nat, quote: char)
    requires InLiteral(source, start, i, quote) && i + 1 < |source| && source[i] == '\\'
    ensures InLiteral(source, start, i + 2, quote)
  {
    assert Backslashes(source, start + 1, i + 1) == 1 + Backslashes(source, start + 1, i);
    assert Escaped(source, start + 1, i + 1);
  }

  lemma EscapeAtEnd(source: string, start: nat, i: nat, quote: char)
    requires InLiteral(source, start, i, quote) && i + 1 == |source| && source[i] == '\\'
    ensures Stuck(source, 0, start)
  {
    assert Backslashes(source, start + 1, i + 1) == 1 + Backslashes(source, start + 1, i);
  }

  /** What has been written when the loop stands at i. */
  ghost predicate Written(source: string, ts: seq<Token>, i: nat, text: string) {
    i <= |source| && text == Broken(source, BreaksOf(source, ts), i)
  }

  lemma WriteMore(source: string, ts: seq<Token>, i: nat, end: nat, text: string)
    requires Lexes(source, 0, ts) && End(ts) <= i <= end <= |source| && Written(source, ts, i, text)
    ensures Written(source, ts, end, text + source[i..end])
  {
    BreaksBelow(source, ts);
    Unbroken(source, BreaksOf(source, ts), i, end);
  }

  lemma WriteChar(source: string, ts: seq<Token>, i: nat, text: string)
    requires Lexes(source, 0, ts) && End(ts) <= i < |source| && Written(source, ts, i, text)
    ensures Written(source, ts, i + 1, text + [source[i]])
  {
    BreaksBelow(source, ts);
  }

  lemma WriteToken(source: string, ts: seq<Token>, t: Token, text: string)
    requires Lexes(source, 0, ts) && Next(source, 0, ts, t) && !Breaks(source, t)
    requires Written(source, ts, t.end, text)
    ensures Written(source, ts + [t], t.end, text)
  {
    assert (ts + [t])[..|ts|] == ts;
    assert BreaksOf(source, ts + [t]) == BreaksOf(source, ts);
  }

  lemma WriteBreak(source: string, ts: seq<Token>, t: Token, text: string)
    requires Lexes(source, 0, ts) && End(ts) == t.start && t.end == t.start + 1 <= |source| && Breaks(source, t)
    requires Written(source, ts, t.start, text)
    ensures Written(source, ts + [t], t.end, text + [source[t.start], '\n'])
  {
    assert (ts + [t])[..|ts|] == ts;
    BreaksBelow(source, ts);
    BrokenLocally(source, BreaksOf(source, ts), BreaksOf(source, ts + [t]), t.start);
  }

  lemma LiteralPassed(source: string, ts: seq<Token>, st: State, written: string) returns (us: seq<Token>)
    requires Reached(source, ts, st) && st.i < |source| && st.quote == Some(source[st.i])
    requires Written(source, ts, st.i + 1, written)
    ensures Reached(source, us, State(st.i + 1, None, st.directive, false)) && Written(source, us, st.i + 1, written)
  {
    assert ClosesLiteral(source, End(ts), st.i);
    us := TokenPassed(source, ts, Token(End(ts), st.i + 1, Literal), written);
  }

  /** A turn inside a literal at a character that is not a backslash. */
  method CharacterTurn(source: string, st: State, text: string, ghost ts: seq<Token>)
    returns (next: State, written: string, ghost us: seq<Token>)
    requires Reached(source, ts, st) && st.i < |source| && st.quote.Some? && Written(source, ts, st.i, text)
    requires source[st.i] != '\\'
    ensures Reached(source, us, next) && next.i > st.i && Written(source, us, next.i, written)
  {
    var c := source[st.i];
    us, written := ts, text + [c];
    WriteChar(source, ts, st.i, text);
    var atLineStart := c == '\n' || (st.atLineStart && Blank(c));
    if c == st.quote.value {
      us := LiteralPassed(source, ts, st, written);
      next := State(st.i + 1, None, st.directive, atLineStart);
    } else {
      next := State(st.i + 1, st.quote, st.directive, atLineStart);
    }
  }

  /** A turn inside a literal. It fails on a backslash with nothing after it. */
  method LiteralTurn(source: string, st: State, text: string, ghost ts: seq<Token>)
    returns (ok: bool, next: State, written: string, ghost us: seq<Token>)
    requires Reached(source, ts, st) && st.i < |source| && st.quote.Some? && Written(source, ts, st.i, text)
    ensures ok ==> Reached(source, us, next) && next.i > st.i && Written(source, us, next.i, written)
    ensures !ok ==> us == ts && Finished(source, 0, ts) && Stuck(source, 0, End(ts))
  {
    var c := source[st.i];
    if c != '\\' {
      next, written, us := CharacterTurn(source, st, text, ts);
      return true, next, written, us;
    }
    if st.i + 1 >= |source| {
      EscapeAtEnd(source, End(ts), st.i, st.quote.value);
      return false, st, text, ts;
    }
    EscapePassed(source, End(ts), st.i, st.quote.value);
    WriteChar(source, ts, st.i, text);
    WriteChar(source, ts, st.i + 1, text + [c]);
    return true, st.(i := st.i + 2), text + [c] + [source[st.i + 1]], ts;
  }

  /** A turn at a comment. It fails if the comment has no end. */
  method CommentTurn(source: string, st: State, text: string, ghost ts: seq<Token>)
    returns (ok: bool, next: State, written: string, ghost us: seq<Token>)
    requires Reached(source, ts, st) && OpensComment(source, st.i) && st.quote.None? && Written(source, ts, st.i, text)
    ensures ok ==> Reached(source, us, next) && next.i > st.i && Written(source, us, next.i, written)
    ensures !ok ==> us == ts && Finished(source, 0, ts) && Stuck(source, 0, End(ts))
  {
    var at := FindCommentEnd(source, st.i);
    if at.None? {
      return false, st, text, ts;
    }
    var end := at.value + 2;
    WriteMore(source, ts, st.i, end, text);
    written := text + source[st.i..end];
    us := TokenPassed(source, ts, Token(st.i, end, Comment), written);
    return true, st.(i := end), written, us;
  }

  /** A turn outside literals and comments, which cannot fail. */
  method PlainTurn(source: string, st: State, text: string, ghost ts: seq<Token>)
    returns (next: State, written: string, ghost us: seq<Token>)
    requires Reached(source, ts, st) && st.i < |source| && st.quote.None? && Written(source, ts, st.i, text)
    requires !OpensComment(source, st.i)
    ensures Reached(source, us, next) && next.i > st.i && Written(source, us, next.i, written)
  {
    var c := source[st.i];
    var atLineStart := c == '\n' || (st.atLineStart && Blank(c));
    us, written := ts, text + [c];
    if Quote(c) {
      WriteChar(source, ts, st.i, text);
      return State(st.i + 1, Some(c), st.directive, atLineStart), written, us;
    }
    var directive := st.directive || (st.atLineStart && c == '#');
    ghost var t := Token(st.i, st.i + 1, if directive then Directive else Code);
    if !directive && Separator(c) {
      written := text + [c, '\n'];
      AppendToken(source, ts, t);
      WriteBreak(source, ts, t, text);
      us := ts + [t];
    } else {
      WriteChar(source, ts, st.i, text);
      us := TokenPassed(source, ts, t, written);
    }
    next := State(st.i + 1, None, directive && c != '\n', atLineStart);
  }

  /** Passing a whole token with no newline after it. */
  lemma TokenPassed(source: string, ts: seq<Token>, t: Token, written: string) returns (us: seq<Token>)
    requires Lexes(source, 0, ts) && Next(source, 0, ts, t) && !Breaks(source, t)
    requires Written(source, ts, t.end, written)
    ensures Appended(source, ts, t, us) && Written(source, us, t.end, written)
  {
    us := ts + [t];
    AppendToken(source, ts, t);
    WriteToken(source, ts, t, written);
  }

  // The position of the first comment end at or after i, or None where the source raises.
  method FindCommentEnd(source: string, i: nat) returns (r: Option<nat>)
    ensures match r
            case Some(at) => CommentEndsAt(source, i, at + 2)
            case None => forall j :: i <= j ==> !ClosesComment(source, j)
  {
    var j := i;
    while j + 1 < |source|
      invariant i <= j && forall k :: i <= k < j ==> !ClosesComment(source, k)
    {
      if ClosesComment(source, j) {
        return Some(j);
      }
      j := j + 1;
    }
    return None;
  }

  /** The text has been used up, possibly inside a literal. */
  lemma Ended(source: string, ts: seq<Token>, st: State, text: string) returns (us: seq<Token>)
    requires Reached(source, ts, st) && st.i == |source| && Written(source, ts, |source|, text)
    ensures Finished(source, 0, us) && End(us) == |source| && text == Output(source, us)
    ensures Erase(text, BreaksOf(source, us), |source|) == source
  {
    us := ts;
    if st.quote.Some? {
      var t := Token(End(ts), |source|, Literal);
      AppendToken(source, ts, t);
      WriteToken(source, ts, t, text);
      us := ts + [t];
    }
    EraseUndoesBroken(source, BreaksOf(source, us), |source|);
    assert source[..|source|] == source;
  }

  /** The loop fails exactly on texts that it cannot read to the end. Otherwise its output is
      the source with a newline after each separator that it reads as code, and deleting those
      newlines gives the source back. */
  method Split(source: string) returns (out: Option<string>)
    ensures out.None? <==> Stuck(source, 0, End(Reading(source, 0)))
    ensures out.Some? ==> End(Reading(source, 0)) == |source| && out.value == Output(source, Reading(source, 0))
    ensures out.Some? ==> Erase(out.value, BreaksOf(source, Reading(source, 0)), |source|) == source
  {
    ghost var ts: seq<Token> := [];
    var st, text := State(0, None, false, true), "";
    while st.i < |source|
      invariant Reached(source, ts, st) && Written(source, ts, st.i, text)
      decreases |source| - st.i
    {
      var ok := true;
      if st.quote.Some? {
        ok, st, text, ts := LiteralTurn(source, st, text, ts);
      } else if OpensComment(source, st.i) {
        ok, st, text, ts := CommentTurn(source, st, text, ts);
      } else {
        st, text, ts := PlainTurn(source, st, text, ts);
      }
      if !ok {
        FinishedIsUnique(source, 0, ts, Reading(source, 0));
        return None;
      }
    }
    ts := Ended(source, ts, st, text);
    FinishedIsUnique(source, 0, ts, Reading(source, 0));
    return Some(text);
  }

  // ---------- What follows for C

  /** When no comment opener is directly followed by a slash, newlines go only after separators
      that are code by the rules of C. */
  lemma OutputFollowsC(source: string)
    requires NoSlashAfterOpener(source, Reading(source, 2))
    ensures Output(source, Reading(source, 0)) == Output(source, Reading(source, 2))
  {
    ReadsAsCIff(source);
  }

  /** One comment for C, in which the loop puts a newline. */
  lemma NewlineInComment(c: seq<Token>, loop: seq<Token>)
    requires c == [Token(0, 6, Comment)]
    requires loop == [Token(0, 3, Comment), Token(3, 4, Code), Token(4, 5, Code), Token(5, 6, Code)]
    ensures Reading("/*/;*/", 2) == c && Reading("/*/;*/", 0) == loop
    ensures Output("/*/;*/", loop) == "/*/;\n*/"
  {
    var source := "/*/;*/";
    assert ClosesComment(source, 4) && ClosesComment(source, 1);
    assert Lexes(source, 2, c[..0]) && c[..0] == [];
    assert loop[..4] == loop && loop[..0] == [];
    for n := 0 to 4
      invariant Lexes(source, 0, loop[..n])
      invariant BreaksOf(source, loop[..n]) == if n < 2 then {} else {3}
    {
      assert loop[..n + 1][..n] == loop[..n];
      assert !InDirective(source, loop[..n]) by {
        assert forall k :: 0 <= k < n ==> !IsPlain(source, loop[..n][k], '#');
        DirectiveMeans(source, loop[..n]);
      }
    }
    FinishedIsUnique(source, 2, c, Reading(source, 2));
    FinishedIsUnique(source, 0, loop, Reading(source, 0));
    var breaks := {3};
    Unbroken(source, breaks, 0, 3);
    Unbroken(source, breaks, 4, 6);
    assert Broken(source, breaks, 4) == Broken(source, breaks, 3) + [';', '\n'];
  }
}
