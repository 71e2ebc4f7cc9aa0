/** `region_tags` of blorp/scripts/attribution/instrument_rc.py: a function body, cut at its
    marker comments into pieces that each carry a category. Where the markers stand in the
    body, and the fields of each, are given. */
module RegionTags {
  import opened Options
  import opened Sequences

  datatype Marker =
    | BeginAcquire(reason: string, source: string, pair: string, owner: string)
    | BeginDrop(owner: string, partner: string)
    | Created(owner: string, kind: string)
    | EndRegion
    | OtherMarker

  /** `acquire:reason:source+pair`, with the source left out for a projection, or
      `drop:origin+pair:partner`. */
  datatype Category =
    | Unmarked
    | Acquisition(reason: string, source: Option<string>, paired: bool)
    | Release(origin: Option<string>, partner: Option<string>)

  /** A marker comment is body[start..end]. */
  datatype Mark = Mark(start: nat, end: nat, marker: Marker)

  datatype Piece = Piece(text: string, category: Category)

  datatype Result = Tagged(pieces: seq<Piece>) | Failed(owner: string)

  // ---------- What the markers mean

  /** The reason in the last A marker of the body for this owner. */
  function LastAcquired(markers: seq<Marker>, owner: string): Option<string> {
    if markers == [] then None
    else
      var last := markers[|markers| - 1];
      if last.BeginAcquire? && last.owner == owner then Some(last.reason)
      else LastAcquired(markers[..|markers| - 1], owner)
  }

  /** The kind in the last K marker of the body for this owner. */
  function LastCreated(markers: seq<Marker>, owner: string): Option<string> {
    if markers == [] then None
    else
      var last := markers[|markers| - 1];
      if last.Created? && last.owner == owner then Some(last.kind)
      else LastCreated(markers[..|markers| - 1], owner)
  }

  predicate Announces(m: Marker, owner: string) {
    (m.BeginAcquire? || m.Created?) && m.owner == owner
  }

  function Origin(markers: seq<Marker>, owner: string): Option<string> {
    var acquired := LastAcquired(markers, owner);
    if acquired.Some? then acquired else LastCreated(markers, owner)
  }

  /** An owner has an origin exactly when the body has an A or K marker for it. */
  lemma {:induction false} OriginIff(markers: seq<Marker>, owner: string)
    ensures Origin(markers, owner).Some? <==> exists i :: 0 <= i < |markers| && Announces(markers[i], owner)
  {
    if markers != [] {
      var front, last := markers[..|markers| - 1], markers[|markers| - 1];
      OriginIff(front, owner);
      assert Announces(last, owner) ==> Announces(markers[|markers| - 1], owner);
      if i :| 0 <= i < |front| && Announces(front[i], owner) {
        assert Announces(markers[i], owner);
      }
      if i :| 0 <= i < |markers| && Announces(markers[i], owner) {
        assert i == |front| || Announces(front[i], owner);
      }
    }
  }

  predicate Acquires(m: Marker, owner: string) { m.BeginAcquire? && m.owner == owner }

  predicate Creates(m: Marker, owner: string) { m.Created? && m.owner == owner }

  lemma {:induction false} LastAcquiredIs(markers: seq<Marker>, owner: string, i: nat)
    requires i < |markers| && Acquires(markers[i], owner) && forall j :: i < j < |markers| ==> !Acquires(markers[j], owner)
    ensures LastAcquired(markers, owner) == Some(markers[i].reason)
  {
    if i < |markers| - 1 {
      LastAcquiredIs(markers[..|markers| - 1], owner, i);
    }
  }

  lemma {:induction false} LastCreatedIs(markers: seq<Marker>, owner: string, i: nat)
    requires i < |markers| && Creates(markers[i], owner) && forall j :: i < j < |markers| ==> !Creates(markers[j], owner)
    ensures LastCreated(markers, owner) == Some(markers[i].kind)
  {
    if i < |markers| - 1 {
      LastCreatedIs(markers[..|markers| - 1], owner, i);
    }
  }

  /** Wherever they stand, the last A marker of the owner decides, and only without one the last
      K marker. */
  lemma OriginMeans(markers: seq<Marker>, owner: string, i: nat)
    requires i < |markers|
    ensures Acquires(markers[i], owner) && (forall j :: i < j < |markers| ==> !Acquires(markers[j], owner)) ==>
              Origin(markers, owner) == Some(markers[i].reason)
    ensures Creates(markers[i], owner) && (forall j :: i < j < |markers| ==> !Creates(markers[j], owner))
            && (forall j :: 0 <= j < |markers| ==> !Acquires(markers[j], owner)) ==>
              Origin(markers, owner) == Some(markers[i].kind)
  {
    if Acquires(markers[i], owner) && forall j :: i < j < |markers| ==> !Acquires(markers[j], owner) {
      LastAcquiredIs(markers, owner, i);
    }
    if Creates(markers[i], owner) && forall j :: i < j < |markers| ==> !Creates(markers[j], owner) {
      LastCreatedIs(markers, owner, i);
    }
    if forall j :: 0 <= j < |markers| ==> !Acquires(markers[j], owner) {
      NothingAcquired(markers, owner);
    }
  }

  lemma {:induction false} NothingAcquired(markers: seq<Marker>, owner: string)
    requires forall j :: 0 <= j < |markers| ==> !Acquires(markers[j], owner)
    ensures LastAcquired(markers, owner) == None
  {
    if markers != [] {
      var front := markers[..|markers| - 1];
      assert forall j :: 0 <= j < |front| ==> markers[j] == front[j];
      NothingAcquired(front, owner);
    }
  }

  predicate Decides(m: Marker) {
    m.BeginAcquire? || m.BeginDrop? || m.EndRegion?
  }

  /** The category that a B or E marker starts. */
  function CategoryOf(markers: seq<Marker>, m: Marker): Category
    requires Decides(m)
  {
    match m
    case BeginAcquire(reason, source, pair, _) =>
      Acquisition(reason, if reason == "projection" then None else Some(source), pair == "pair")
    case BeginDrop(owner, partner) =>
      Release(Origin(markers, owner), if partner == "none" then None else Some(partner))
    case EndRegion => Unmarked
  }

  /** The last B or E marker among the first i, or -1. */
  function LastDeciding(markers: seq<Marker>, i: nat): (k: int)
    requires i <= |markers|
    ensures -1 <= k < i && (k >= 0 ==> Decides(markers[k]))
    ensures forall j :: k < j < i ==> !Decides(markers[j])
  {
    if i == 0 then -1 else if Decides(markers[i - 1]) then i - 1 else LastDeciding(markers, i - 1)
  }

  /** The category of the text after the first i markers: no other marker matters. */
  function CategoryAt(markers: seq<Marker>, i: nat): Category
    requires i <= |markers|
  {
    var k := LastDeciding(markers, i);
    if k < 0 then Unmarked else CategoryOf(markers, markers[k])
  }

  ghost predicate EveryDropHasOrigin(markers: seq<Marker>, n: nat)
    requires n <= |markers|
  {
    forall i :: 0 <= i < n && markers[i].BeginDrop? ==> Origin(markers, markers[i].owner).Some?
  }

  // ---------- The text between the markers

  ghost predicate Marked(body: string, marks: seq<Mark>) {
    && (forall i :: 0 <= i < |marks| ==> marks[i].start <= marks[i].end <= |body|)
    && forall i, j :: 0 <= i < j < |marks| ==> marks[i].end <= marks[j].start
  }

  predicate Covered(marks: seq<Mark>, k: int) {
    exists i :: 0 <= i < |marks| && marks[i].start <= k < marks[i].end
  }

  /** The positions inside markers. */
  function Hidden(body: string, marks: seq<Mark>): set<int> {
    set k | 0 <= k < |body| && Covered(marks, k)
  }

  /** The first n characters without the hidden ones. */
  function Outside(body: string, hidden: set<int>, n: nat): string
    requires n <= |body|
  {
    if n == 0 then "" else Outside(body, hidden, n - 1) + if n - 1 in hidden then "" else [body[n - 1]]
  }

  lemma {:induction false} OutsideKeeps(body: string, hidden: set<int>, a: nat, b: nat)
    requires a <= b <= |body| && forall k :: a <= k < b ==> k !in hidden
    ensures Outside(body, hidden, b) == Outside(body, hidden, a) + body[a..b]
  {
    if a < b {
      OutsideKeeps(body, hidden, a, b - 1);
      assert body[a..b] == body[a..b - 1] + [body[b - 1]];
      Associative(Outside(body, hidden, a), body[a..b - 1], [body[b - 1]]);
    }
  }

  lemma {:induction false} OutsideDrops(body: string, hidden: set<int>, a: nat, b: nat)
    requires a <= b <= |body| && forall k :: a <= k < b ==> k in hidden
    ensures Outside(body, hidden, b) == Outside(body, hidden, a)
  {
    if a < b {
      OutsideDrops(body, hidden, a, b - 1);
    }
  }

  /** Where the text after the first i markers begins. */
  function Cursor(marks: seq<Mark>, i: nat): nat
    requires i <= |marks|
  {
    if i == 0 then 0 else marks[i - 1].end
  }

  function GapEnd(body: string, marks: seq<Mark>, i: nat): nat {
    if i < |marks| then marks[i].start else |body|
  }

  /** The text between marker i - 1 and marker i. */
  function Gap(body: string, marks: seq<Mark>, i: nat): string
    requires i <= |marks|
  {
    var a, b := Cursor(marks, i), GapEnd(body, marks, i);
    if a <= b <= |body| then body[a..b] else ""
  }

  lemma GapBounds(body: string, marks: seq<Mark>, i: nat)
    requires Marked(body, marks) && i <= |marks|
    ensures Cursor(marks, i) <= GapEnd(body, marks, i) <= |body|
    ensures Gap(body, marks, i) == body[Cursor(marks, i)..GapEnd(body, marks, i)]
    ensures forall k :: Cursor(marks, i) <= k < GapEnd(body, marks, i) ==> k !in Hidden(body, marks)
  {
    forall j | 0 <= j < |marks|
      ensures marks[j].end <= Cursor(marks, i) || GapEnd(body, marks, i) <= marks[j].start
    {
    }
  }

  /** What is outside the markers up to where the text after the first i of them begins. */
  function Kept(body: string, marks: seq<Mark>, i: nat): string {
    var n := if i <= |marks| then Cursor(marks, i) else |body|;
    if n <= |body| then Outside(body, Hidden(body, marks), n) else ""
  }

  /** Passing a gap keeps its text, passing a marker drops it. */
  lemma PassGap(body: string, marks: seq<Mark>, i: nat)
    requires Marked(body, marks) && i <= |marks|
    ensures Kept(body, marks, i + 1) == Kept(body, marks, i) + Gap(body, marks, i)
  {
    GapBounds(body, marks, i);
    OutsideKeeps(body, Hidden(body, marks), Cursor(marks, i), GapEnd(body, marks, i));
    if i < |marks| {
      OutsideDrops(body, Hidden(body, marks), marks[i].start, marks[i].end);
    }
  }

  function Joined(pieces: seq<Piece>, n: nat): string
    requires n <= |pieces|
  {
    if n == 0 then "" else Joined(pieces, n - 1) + pieces[n - 1].text
  }

  /** Piece i is the text between two markers. */
  ghost predicate Cut(body: string, marks: seq<Mark>, pieces: seq<Piece>, n: nat)
    requires n <= |marks| + 1
  {
    |pieces| == n && forall i :: 0 <= i < n ==> pieces[i].text == Gap(body, marks, i)
  }

  lemma CutNext(body: string, marks: seq<Mark>, pieces: seq<Piece>, n: nat, piece: Piece)
    requires n <= |marks| && Cut(body, marks, pieces, n) && piece.text == Gap(body, marks, n)
    ensures Cut(body, marks, pieces + [piece], n + 1)
  {
  }

  /** Whatever grows by the text of every piece is the pieces joined. */
  lemma {:induction false} JoinedIs(pieces: seq<Piece>, n: nat, grown: nat -> string)
    requires n <= |pieces| && grown(0) == ""
    requires forall i :: 0 <= i < n ==> grown(i + 1) == grown(i) + pieces[i].text
    ensures Joined(pieces, n) == grown(n)
  {
    if n > 0 {
      JoinedIs(pieces, n - 1, grown);
      assert grown(n - 1 + 1) == grown(n - 1) + pieces[n - 1].text;
    }
  }

  /** Together the pieces are the body without its markers. */
  lemma PiecesAreBody(body: string, marks: seq<Mark>, pieces: seq<Piece>)
    requires Marked(body, marks) && Cut(body, marks, pieces, |marks| + 1)
    ensures Joined(pieces, |pieces|) == Outside(body, Hidden(body, marks), |body|)
  {
    var grown := (i: nat) => Kept(body, marks, i);
    forall i | 0 <= i < |pieces|
      ensures grown(i + 1) == grown(i) + pieces[i].text
    {
      PassGap(body, marks, i);
    }
    JoinedIs(pieces, |pieces|, grown);
  }

  // ---------- The function

  function Markers(marks: seq<Mark>): seq<Marker> {
    seq(|marks|, i requires 0 <= i < |marks| => marks[i].marker)
  }

  ghost predicate Categorised(markers: seq<Marker>, pieces: seq<Piece>, n: nat)
    requires n <= |markers| + 1
  {
    |pieces| == n && forall i :: 0 <= i < n ==> pieces[i].category == CategoryAt(markers, i)
  }

  /** The first pass over the markers fills two dictionaries, the last marker of an owner
      winning in each. */
  method CollectOwners(markers: seq<Marker>) returns (acquired: map<string, string>, created: map<string, string>)
    ensures forall owner :: LastAcquired(markers, owner) == if owner in acquired then Some(acquired[owner]) else None
    ensures forall owner :: LastCreated(markers, owner) == if owner in created then Some(created[owner]) else None
  {
    acquired, created := map[], map[];
    for i := 0 to |markers|
      invariant forall owner ::
          LastAcquired(markers[..i], owner) == if owner in acquired then Some(acquired[owner]) else None
      invariant forall owner ::
          LastCreated(markers[..i], owner) == if owner in created then Some(created[owner]) else None
    {
      assert markers[..i + 1][..i] == markers[..i];
      match markers[i]
      case BeginAcquire(reason, _, _, owner) => acquired := acquired[owner := reason];
      case Created(owner, kind) => created := created[owner := kind];
      case _ =>
    }
    assert markers[..|markers|] == markers;
  }

  lemma CategorisedNext(markers: seq<Marker>, pieces: seq<Piece>, n: nat, piece: Piece)
    requires n <= |markers| && Categorised(markers, pieces, n) && piece.category == CategoryAt(markers, n)
    ensures Categorised(markers, pieces + [piece], n + 1)
  {
  }

  /** It fails exactly on a body with a drop of an owner that no A or K marker announces.
      Otherwise the pieces are cut where the markers were, each has the category in force
      there, and together they are the body without its markers. */
  method Tag(body: string, marks: seq<Mark>) returns (r: Result)
    requires Marked(body, marks)
    ensures r.Tagged? <==> EveryDropHasOrigin(Markers(marks), |marks|)
    ensures r.Tagged? ==> Cut(body, marks, r.pieces, |marks| + 1) && Categorised(Markers(marks), r.pieces, |marks| + 1)
    ensures r.Tagged? ==> Joined(r.pieces, |r.pieces|) == Outside(body, Hidden(body, marks), |body|)
    ensures r.Failed? ==> forall i :: 0 <= i < |marks| ==> !Announces(Markers(marks)[i], r.owner)
  {
    var markers := Markers(marks);
    var acquired, created := CollectOwners(markers);
    var pieces: seq<Piece>, cursor: nat, category := [], 0, Unmarked;
    for i := 0 to |marks|
      invariant cursor == Cursor(marks, i) && category == CategoryAt(markers, i)
      invariant Cut(body, marks, pieces, i) && Categorised(markers, pieces, i)
      invariant EveryDropHasOrigin(markers, i)
    {
      GapBounds(body, marks, i);
      var piece := Piece(body[cursor..marks[i].start], category);
      CutNext(body, marks, pieces, i, piece);
      CategorisedNext(markers, pieces, i, piece);
      pieces := pieces + [piece];
      cursor := marks[i].end;
      var ok;
      ok, category := NextRegion(markers, i, category, acquired, created);
      if !ok {
        return Failed(markers[i].owner);
      }
    }
    GapBounds(body, marks, |marks|);
    var piece := Piece(body[cursor..], category);
    CutNext(body, marks, pieces, |marks|, piece);
    CategorisedNext(markers, pieces, |marks|, piece);
    pieces := pieces + [piece];
    PiecesAreBody(body, marks, pieces);
    return Tagged(pieces);
  }

  /** What one marker does to the category. It fails on a drop of an unknown owner. */
  method NextRegion(markers: seq<Marker>, i: nat, category: Category,
                    acquired: map<string, string>, created: map<string, string>)
    returns (ok: bool, next: Category)
    requires i < |markers| && category == CategoryAt(markers, i)
    requires forall owner :: LastAcquired(markers, owner) == if owner in acquired then Some(acquired[owner]) else None
    requires forall owner :: LastCreated(markers, owner) == if owner in created then Some(created[owner]) else None
    ensures ok <==> (markers[i].BeginDrop? ==> Origin(markers, markers[i].owner).Some?)
    ensures ok ==> next == CategoryAt(markers, i + 1)
    ensures !ok ==> forall k :: 0 <= k < |markers| ==> !Announces(markers[k], markers[i].owner)
  {
    match markers[i]
    case BeginAcquire(reason, source, pair, _) =>
      return true, Acquisition(reason, if reason == "projection" then None else Some(source), pair == "pair");
    case BeginDrop(owner, partner) =>
      OriginIff(markers, owner);
      if owner !in acquired && owner !in created {
        return false, category;
      }
      var origin := if owner in acquired then acquired[owner] else created[owner];
      return true, Release(Some(origin), if partner == "none" then None else Some(partner));
    case EndRegion => return true, Unmarked;
    case Created(_, _) => return true, category;
    case OtherMarker => return true, category;
  }
}
