/** The collaborative text of apps/markdown/src/lib.rs. Automerge is a text of
  * ordered elements with tombstones: every replica places an element once, at a
  * place all replicas agree on, and may only ever hide it. A snapshot is a document,
  * and merging is union. */
module TextDocument {
  import opened Wrappers
  import opened Words
  import opened ScalarDiff

  datatype Elem = Elem(place: real, ch: char)

  predicate Less(a: Elem, b: Elem) {
    a.place < b.place || (a.place == b.place && a.ch < b.ch)
  }

  datatype Doc = Doc(elems: set<Elem>, removed: set<Elem>) {
    function Visible(): set<Elem> { elems - removed }

    /** The text's elements in order. */
    function Items(): seq<Elem> { Sorted(Visible()) }

    function Text(): (s: string) { Chars(Items()) }

    ghost predicate Covers(other: Doc) { other.elems <= elems && other.removed <= removed }
  }

  function Merge(a: Doc, b: Doc): (c: Doc) {
    Doc(a.elems + b.elems, a.removed + b.removed)
  }

  function Chars(items: seq<Elem>): (s: string)
    ensures |s| == |items|
  {
    seq(|items|, i requires 0 <= i < |items| => items[i].ch)
  }

  // ---- Sets of elements, in order ----------------------------------------

  predicate IsLeast(s: set<Elem>, e: Elem) {
    e in s && forall x | x in s :: !Less(x, e)
  }

  lemma LeastExists(s: set<Elem>)
    requires s != {}
    ensures exists e :: IsLeast(s, e)
  {
    var e :| e in s;
    var rest := s - {e};
    if rest == {} {
      assert s == {e};
      assert IsLeast(s, e);
    } else {
      LeastExists(rest);
      var m :| IsLeast(rest, m);
      var l := if Less(m, e) then m else e;
      forall x | x in s ensures !Less(x, l) {
        assert x == e || x in rest;
      }
      assert IsLeast(s, l);
    }
  }

  function Least(s: set<Elem>): (e: Elem)
    requires s != {}
    ensures IsLeast(s, e)
  {
    LeastExists(s);
    var e :| IsLeast(s, e);
    e
  }

  function Sorted(s: set<Elem>): (r: seq<Elem>)
    decreases |s|
  {
    if s == {} then [] else [Least(s)] + Sorted(s - {Least(s)})
  }

  ghost predicate Ascending(r: seq<Elem>) {
    forall i, j | 0 <= i < j < |r| :: Less(r[i], r[j])
  }

  lemma {:induction false} SortedSorts(s: set<Elem>)
    ensures Ascending(Sorted(s)) && |Sorted(s)| == |s| && forall x :: x in Sorted(s) <==> x in s
    decreases |s|
  {
    if s != {} { SortedSorts(s - {Least(s)}); }
  }

  /** A set has one ascending listing. */
  lemma {:induction false} SortedUnique(s: set<Elem>, r: seq<Elem>)
    requires Ascending(r) && forall x :: x in r <==> x in s
    ensures Sorted(s) == r
    decreases |s|
  {
    if r == [] {
      assert s == {};
    } else {
      assert r[0] in r;
      var m := Least(s);
      assert m in r;
      assert r[0] == m;
      var rest := r[1..];
      forall x ensures x in rest <==> x in s - {m} {
        if x in rest {
          var i :| 0 <= i < |rest| && rest[i] == x;
          assert Less(r[0], r[i + 1]);
        }
      }
      SortedUnique(s - {m}, rest);
      assert r == [m] + rest;
    }
  }

  function Below(s: set<Elem>, e: Elem): (b: set<Elem>) {
    set x | x in s && Less(x, e)
  }

  /** How many elements precede `e` is where the first one not before it stands. */
  lemma CountBelow(s: set<Elem>, e: Elem, p: nat)
    requires p <= |s|
    requires |Sorted(s)| == |s| && (forall i | 0 <= i < p :: Less(Sorted(s)[i], e))
    requires p < |s| ==> !Less(Sorted(s)[p], e)
    ensures |Below(s, e)| == p
  {
    var r := Sorted(s);
    SortedSorts(s);
    FrontCount(r, p);
    forall x ensures x in Front(r, p) <==> x in Below(s, e) {
      FrontMembers(r, p, x);
      if x in s {
        var k :| 0 <= k < |r| && r[k] == x;
        if k > p { assert Less(r[p], r[k]); }
      }
    }
    assert Front(r, p) == Below(s, e);
  }

  ghost function Front(r: seq<Elem>, p: nat): set<Elem>
    requires p <= |r|
  {
    if p == 0 then {} else Front(r, p - 1) + {r[p - 1]}
  }

  lemma {:induction false} FrontCount(r: seq<Elem>, p: nat)
    requires Ascending(r) && p <= |r|
    ensures |Front(r, p)| == p
  {
    if p > 0 {
      FrontCount(r, p - 1);
      NotInFront(r, p - 1, p - 1);
    }
  }

  lemma {:induction false} FrontMembers(r: seq<Elem>, p: nat, x: Elem)
    requires p <= |r|
    ensures x in Front(r, p) <==> exists k | 0 <= k < p :: r[k] == x
  {
    if p > 0 { FrontMembers(r, p - 1, x); }
  }

  lemma {:induction false} NotInFront(r: seq<Elem>, p: nat, q: nat)
    requires Ascending(r) && p <= q < |r|
    ensures r[q] !in Front(r, p)
  {
    if p > 0 {
      NotInFront(r, p - 1, q);
      assert Less(r[p - 1], r[q]);
    }
  }

  // ---- Cursors -----------------------------------------------------------

  /** Every anchor inside the text is made with `MoveCursor::After`. */
  datatype Cursor = Start | End | At(anchor: Elem)

  datatype Direction = Forward | Backward | NoDirection
  datatype Selection = Selection(start: Cursor, end: Cursor, direction: Direction, isComposing: bool)
  datatype ControlState =
    ControlState(value: string, selectionStart: nat, selectionEnd: nat, direction: Direction, isComposing: bool)

  datatype Fault = Offset(why: OffsetError) | StaleSnapshot | UnknownAnchor | BadSnapshot | BodyMissing

  /** `get_cursor_position`: a deleted anchor stands where the next survivor does. */
  function CursorPosition(doc: Doc, c: Cursor): (p: Result<nat, Fault>) {
    match c
    case Start => Ok(0)
    case End => Ok(|doc.Visible()|)
    case At(e) => if e in doc.elems then Ok(|Below(doc.Visible(), e)|) else Err(UnknownAnchor)
  }

  /** `boundary_cursor`. */
  function BoundaryCursor(doc: Doc, position: nat): (c: Cursor)
    requires position <= |doc.Items()|
  {
    if position == 0 then Start
    else if position == |doc.Items()| then End
    else At(doc.Items()[position])
  }

  /** A fresh cursor stands where it was asked to. */
  lemma BoundaryPosition(doc: Doc, position: nat)
    requires position <= |doc.Items()|
    ensures CursorPosition(doc, BoundaryCursor(doc, position)) == Ok(position)
  {
    SortedSorts(doc.Visible());
    if 0 < position < |doc.Items()| {
      var e := doc.Items()[position];
      assert e in doc.Items();
      CountBelow(doc.Visible(), e, position);
    }
  }

  /** A surviving anchor is the element at its position; a deleted one is followed
    * there by the next survivor, or by nothing. */
  lemma AnchorResolves(doc: Doc, e: Elem)
    requires e in doc.elems
    ensures var p := CursorPosition(doc, At(e)).value;
            && p <= |doc.Items()|
            && (forall i | 0 <= i < p :: Less(doc.Items()[i], e))
            && (forall i | p <= i < |doc.Items()| :: doc.Items()[i] == e || Less(e, doc.Items()[i]))
            && (e in doc.Visible() ==> p < |doc.Items()| && doc.Items()[p] == e)
  {
    var r := doc.Items();
    SortedSorts(doc.Visible());
    var p: nat := 0;
    while p < |r| && Less(r[p], e)
      invariant p <= |r| && forall i | 0 <= i < p :: Less(r[i], e)
    {
      p := p + 1;
    }
    CountBelow(doc.Visible(), e, p);
    forall i | p <= i < |r| ensures r[i] == e || Less(e, r[i]) {
      if p < i { assert Less(r[p], r[i]); }
    }
    if e in doc.Visible() {
      var k :| 0 <= k < |r| && r[k] == e;
    }
  }

  /** `c` can never stand after `d`, whatever the document. */
  predicate AtMost(c: Cursor, d: Cursor) {
    c == d || c.Start? || d.End? || (c.At? && d.At? && Less(c.anchor, d.anchor))
  }

  lemma AtMostPositions(doc: Doc, c: Cursor, d: Cursor)
    requires AtMost(c, d) && CursorPosition(doc, c).Ok? && CursorPosition(doc, d).Ok?
    ensures CursorPosition(doc, c).value <= CursorPosition(doc, d).value <= |doc.Items()|
  {
    SortedSorts(doc.Visible());
    if c.At? { SubsetCount(Below(doc.Visible(), c.anchor), doc.Visible()); }
    if d.At? { SubsetCount(Below(doc.Visible(), d.anchor), doc.Visible()); }
    if c.At? && d.At? { SubsetCount(Below(doc.Visible(), c.anchor), Below(doc.Visible(), d.anchor)); }
  }

  lemma {:induction false} SubsetCount(a: set<Elem>, b: set<Elem>)
    requires a <= b
    ensures |a| <= |b|
  {
    if a != {} {
      var x :| x in a;
      SubsetCount(a - {x}, b - {x});
    }
  }

  /** A selection made of two boundaries, sharing one cursor when they coincide. */
  function Select(doc: Doc, start: nat, end: nat, direction: Direction, isComposing: bool): (s: Selection)
    requires start <= |doc.Items()| && end <= |doc.Items()|
  {
    var from := BoundaryCursor(doc, start);
    Selection(from, if start == end then from else BoundaryCursor(doc, end), direction, isComposing)
  }

  /** Selected in order, a selection stays in order in every document that still has
    * its anchors, and one that is collapsed stays collapsed. */
  lemma SelectionNeverInverts(doc: Doc, start: nat, end: nat, direction: Direction, isComposing: bool, later: Doc)
    requires start <= end <= |doc.Items()| && later.Covers(doc)
    ensures var s := Select(doc, start, end, direction, isComposing);
            var from, to := CursorPosition(later, s.start), CursorPosition(later, s.end);
            && from.Ok? && to.Ok? && from.value <= to.value <= |later.Items()|
            && (start == end ==> from == to)
  {
    SortedSorts(doc.Visible());
    var s := Select(doc, start, end, direction, isComposing);
    if s.start.At? { assert doc.Items()[start] in doc.Items(); }
    if s.end.At? { assert doc.Items()[end] in doc.Items(); }
    AtMostPositions(later, s.start, s.end);
  }

  // ---- Editing -----------------------------------------------------------

  /** New elements for `chars`, to stand between the items before `start` and the
    * rest: what Automerge allots for the operations of one transaction. */
  ghost predicate Fits(doc: Doc, start: nat, chars: string, added: seq<Elem>) {
    && Chars(added) == chars && Ascending(added)
    && (forall k | 0 <= k < |added| :: added[k] !in doc.elems && added[k] !in doc.removed)
    && start <= |doc.Items()|
    && (forall i, k | 0 <= i < start && 0 <= k < |added| :: Less(doc.Items()[i], added[k]))
    && (forall i, k | start <= i < |doc.Items()| && 0 <= k < |added| :: Less(added[k], doc.Items()[i]))
  }

  function Members(items: seq<Elem>): set<Elem> {
    set e | e in items
  }

  function SpliceText(doc: Doc, start: nat, deleted: nat, added: seq<Elem>): (d: Doc)
    requires start + deleted <= |doc.Items()|
    ensures d.Covers(doc)
  {
    Doc(doc.elems + Members(added), doc.removed + Members(doc.Items()[start..start + deleted]))
  }

  lemma SpliceItems(doc: Doc, start: nat, deleted: nat, chars: string, added: seq<Elem>)
    requires start + deleted <= |doc.Items()| && Fits(doc, start, chars, added)
    ensures SpliceText(doc, start, deleted, added).Items()
         == doc.Items()[..start] + added + doc.Items()[start + deleted..]
  {
    var r := doc.Items();
    SortedSorts(doc.Visible());
    var a, b := r[..start], r[start + deleted..];
    var now := a + added + b;
    SpliceAscends(a, added, b);
    var d := SpliceText(doc, start, deleted, added);
    forall x ensures x in now <==> x in d.Visible() {
      SpliceMembers(doc, start, deleted, added, x);
    }
    SortedUnique(d.Visible(), now);
  }

  lemma SpliceAscends(a: seq<Elem>, b: seq<Elem>, c: seq<Elem>)
    requires Ascending(a) && Ascending(b) && Ascending(c)
    requires forall i, k | 0 <= i < |a| && 0 <= k < |b| :: Less(a[i], b[k])
    requires forall i, k | 0 <= i < |b| && 0 <= k < |c| :: Less(b[i], c[k])
    requires forall i, k | 0 <= i < |a| && 0 <= k < |c| :: Less(a[i], c[k])
    ensures Ascending(a + b + c)
  {
  }

  lemma SpliceMembers(doc: Doc, start: nat, deleted: nat, added: seq<Elem>, x: Elem)
    requires start + deleted <= |doc.Items()|
    requires forall k | 0 <= k < |added| :: added[k] !in doc.elems && added[k] !in doc.removed
    ensures x in doc.Items()[..start] + added + doc.Items()[start + deleted..]
       <==> x in SpliceText(doc, start, deleted, added).Visible()
  {
    var r := doc.Items();
    SortedSorts(doc.Visible());
    var a, mid, b := r[..start], r[start..start + deleted], r[start + deleted..];
    assert r == a + mid + b;
    InThree(a, mid, b, x);
    Apart(a, mid, b, x);
    assert x in added ==> x !in doc.elems && x !in doc.removed;
    InThree(a, added, b, x);
    assert x in doc.Visible() <==> x in r;
  }

  lemma InThree(a: seq<Elem>, b: seq<Elem>, c: seq<Elem>, x: Elem)
    ensures x in a + b + c <==> x in a || x in b || x in c
  {
  }

  lemma Apart(a: seq<Elem>, b: seq<Elem>, c: seq<Elem>, x: Elem)
    requires Ascending(a + b + c)
    ensures x in b ==> x !in a && x !in c
  {
    var r := a + b + c;
    if x in b {
      var k :| 0 <= k < |b| && b[k] == x;
      assert r[|a| + k] == x;
      forall i | 0 <= i < |a| ensures a[i] != x {
        assert r[i] == a[i] && Less(r[i], r[|a| + k]);
      }
      forall i | 0 <= i < |c| ensures c[i] != x {
        assert r[|a| + |b| + i] == c[i] && Less(r[|a| + k], r[|a| + |b| + i]);
      }
    }
  }

  /** After the splice the document's text is the splice of its text. */
  lemma SpliceTexts(doc: Doc, start: nat, deleted: nat, chars: string, added: seq<Elem>)
    requires start + deleted <= |doc.Items()| && Fits(doc, start, chars, added)
    ensures SpliceText(doc, start, deleted, added).Text() == Apply(doc.Text(), start, deleted, chars)
  {
    SpliceItems(doc, start, deleted, chars, added);
    var r := doc.Items();
    assert Chars(r[..start] + added + r[start + deleted..]) == Apply(doc.Text(), start, deleted, chars);
  }

  ghost predicate DistinctPlaces(s: set<Elem>) {
    forall a, b | a in s && b in s && a.place == b.place :: a == b
  }

  /** Right after `lo` there is room before the next element. */
  lemma {:induction false} Gap(s: set<Elem>, lo: real) returns (hi: real)
    ensures lo < hi && forall e | e in s :: e.place <= lo || hi <= e.place
  {
    if s == {} {
      hi := lo + 1.0;
    } else {
      var e :| e in s;
      hi := Gap(s - {e}, lo);
      if lo < e.place < hi { hi := e.place; }
    }
  }

  lemma {:induction false} Bottom(s: set<Elem>) returns (lo: real)
    ensures forall e | e in s :: lo < e.place
  {
    if s == {} {
      lo := 0.0;
    } else {
      var e :| e in s;
      lo := Bottom(s - {e});
      if e.place <= lo { lo := e.place - 1.0; }
    }
  }

  lemma {:induction false} Allot(lo: real, hi: real, chars: string) returns (added: seq<Elem>)
    requires lo < hi
    ensures Chars(added) == chars && Ascending(added)
    ensures forall k | 0 <= k < |added| :: lo < added[k].place < hi
    ensures forall j, k | 0 <= j < k < |added| :: added[j].place < added[k].place
    decreases |chars|
  {
    if chars == "" {
      added := [];
    } else {
      var m := (lo + hi) / 2.0;
      var front := Allot(lo, m, chars[..|chars| - 1]);
      added := front + [Elem(m, chars[|chars| - 1])];
      assert Chars(added) == Chars(front) + [chars[|chars| - 1]];
    }
  }

  /** `world` is every element any replica has placed. */
  ghost predicate Within(world: set<Elem>, doc: Doc) {
    doc.elems + doc.removed <= world
  }

  /** As long as no two elements of the world share a place, any text fits at any position
    * of any replica's document, and the world with its elements in it is so again. */
  lemma FitsSomewhere(world: set<Elem>, doc: Doc, start: nat, chars: string) returns (added: seq<Elem>)
    requires DistinctPlaces(world) && Within(world, doc) && start <= |doc.Items()|
    ensures Fits(doc, start, chars, added) && DistinctPlaces(world + Members(added))
  {
    var r := doc.Items();
    SortedSorts(doc.Visible());
    forall i | 0 <= i < |r| ensures r[i] in doc.elems { assert r[i] in r; }
    var lo;
    if start == 0 { lo := Bottom(world); } else { lo := r[start - 1].place; }
    var hi := Gap(world, lo);
    added := Allot(lo, hi, chars);
    Around(world, r, start, lo, hi);
    AllottedApart(world, lo, hi, added);
    FitsBetween(doc, start, chars, added, lo, hi);
  }

  lemma FitsBetween(doc: Doc, start: nat, chars: string, added: seq<Elem>, lo: real, hi: real)
    requires start <= |doc.Items()| && Chars(added) == chars && Ascending(added)
    requires forall k | 0 <= k < |added| :: lo < added[k].place < hi
    requires forall e | e in doc.elems + doc.removed :: e.place <= lo || hi <= e.place
    requires forall i | 0 <= i < start :: doc.Items()[i].place <= lo
    requires forall i | start <= i < |doc.Items()| :: hi <= doc.Items()[i].place
    ensures Fits(doc, start, chars, added)
  {
  }

  /** A splice adds what was allotted to its replica's part of the world, and no more. */
  lemma SpliceWithin(world: set<Elem>, doc: Doc, start: nat, deleted: nat, added: seq<Elem>)
    requires Within(world, doc) && start + deleted <= |doc.Items()|
    ensures Within(world + Members(added), SpliceText(doc, start, deleted, added))
  {
    SortedSorts(doc.Visible());
    forall e | e in Members(doc.Items()[start..start + deleted]) ensures e in doc.elems {
      assert e in doc.Items();
    }
  }

  lemma AllottedApart(world: set<Elem>, lo: real, hi: real, added: seq<Elem>)
    requires DistinctPlaces(world) && forall e | e in world :: e.place <= lo || hi <= e.place
    requires forall k | 0 <= k < |added| :: lo < added[k].place < hi
    requires forall j, k | 0 <= j < k < |added| :: added[j].place < added[k].place
    ensures DistinctPlaces(world + Members(added))
  {
  }

  /** What one replica gives another is of the same world. */
  lemma MergeWithin(world: set<Elem>, a: Doc, b: Doc)
    requires Within(world, a)
    ensures Within(world, Merge(a, b)) <==> Within(world, b)
  {
    assert b.elems <= Merge(a, b).elems && b.removed <= Merge(a, b).removed;
  }

  lemma Around(s: set<Elem>, r: seq<Elem>, start: nat, lo: real, hi: real)
    requires Ascending(r) && start <= |r| && DistinctPlaces(s) && (forall i | 0 <= i < |r| :: r[i] in s)
    requires if start == 0 then forall e | e in s :: lo < e.place else lo == r[start - 1].place
    requires forall e | e in s :: e.place <= lo || hi <= e.place
    ensures forall i | 0 <= i < start :: r[i].place <= lo
    ensures forall i | start <= i < |r| :: hi <= r[i].place
  {
    forall i | start <= i < |r| ensures hi <= r[i].place {
      if start > 0 { assert Less(r[start - 1], r[i]); }
    }
    forall i | 0 <= i < start ensures r[i].place <= lo {
      if i < start - 1 { assert Less(r[i], r[start - 1]); }
    }
  }

  // ---- The document a textarea shows -------------------------------------

  /** `history.read` and `history.watch` answer with bytes: none, or a history that may
    * not hold the body yet, or something that does not load, or a history with which
    * merged there is no body any more. */
  datatype Snapshot = NoBytes | Malformed | History(hasBody: bool, doc: Doc) | Bodiless(doc: Doc)

  /** What merging the bytes adds to a document. */
  function Loads(bytes: Snapshot): (d: Doc) {
    match bytes
    case NoBytes => Doc({}, {})
    case Malformed => Doc({}, {})
    case History(_, doc) => doc
    case Bodiless(doc) => doc
  }

  function Units16(value: string, position: Result<nat, Fault>): Result<nat, Fault> {
    if position.Err? then position
    else
      var offset := ScalarToUtf16(value, position.value);
      if offset.Err? then Err(Offset(offset.error)) else Ok(offset.value)
  }

  /** What `control_state` answers: the text, and the selection in UTF-16 units. */
  function Control(doc: Doc, s: Selection): (r: Result<ControlState, Fault>) {
    var start := Units16(doc.Text(), CursorPosition(doc, s.start));
    var end := Units16(doc.Text(), CursorPosition(doc, s.end));
    if start.Err? then Err(start.error)
    else if end.Err? then Err(end.error)
    else Ok(ControlState(doc.Text(), start.value, end.value, s.direction, s.isComposing))
  }

  /** The scalar positions a browser's selection names in the text it names. */
  ghost predicate Captures(doc: Doc, state: ControlState, start: nat, end: nat) {
    && doc.Text() == state.value
    && Begins(state.value, start, state.selectionStart) && Begins(state.value, end, state.selectionEnd)
  }

  /** Both ends of the browser's selection stand between scalars of this text. */
  ghost predicate Placeable(doc: Doc, state: ControlState) {
    exists start: nat, end: nat :: Captures(doc, state, start, end)
  }

  /** A captured selection is shown again exactly as the browser reported it. */
  lemma CapturedIsShown(doc: Doc, state: ControlState, start: nat, end: nat)
    requires Captures(doc, state, start, end) && Units(state.value) < U32
    ensures Control(doc, Select(doc, start, end, state.direction, state.isComposing)) == Ok(state)
  {
    BoundaryPosition(doc, start);
    BoundaryPosition(doc, end);
    OffsetsInverse(state.value, start, state.selectionStart);
    OffsetsInverse(state.value, end, state.selectionEnd);
  }

  /** What is shown of it in any later document: offsets still in order, within the
    * text and on scalar boundaries, and equal if they were equal. */
  lemma ShownInOrder(doc: Doc, state: ControlState, start: nat, end: nat, later: Doc)
    requires Captures(doc, state, start, end) && start <= end && later.Covers(doc) && Units(later.Text()) < U32
    ensures var s := Select(doc, start, end, state.direction, state.isComposing);
            var shown := Control(later, s);
            && ShownWell(later, s, shown)
            && (start == end ==> shown.value.selectionStart == shown.value.selectionEnd)
  {
    var s := Select(doc, start, end, state.direction, state.isComposing);
    assert s == Select(doc, start, end, s.direction, s.isComposing);
    assert InOrder(doc, s) by { assert doc.Covers(doc); }
    InOrderLater(doc, s, later);
    InOrderShown(later, s);
  }

  /** The selection was made in order, in some document this one covers. */
  ghost predicate InOrder(doc: Doc, s: Selection) {
    exists base: Doc, start: nat, end: nat ::
      && doc.Covers(base) && start <= end <= |base.Items()|
      && s == Select(base, start, end, s.direction, s.isComposing)
  }

  lemma InOrderLater(doc: Doc, s: Selection, later: Doc)
    requires InOrder(doc, s) && later.Covers(doc)
    ensures InOrder(later, s)
  {
    var base: Doc, start: nat, end: nat :|
      && doc.Covers(base) && start <= end <= |base.Items()|
      && s == Select(base, start, end, s.direction, s.isComposing);
    assert later.Covers(base);
  }

  lemma InOrderShown(doc: Doc, s: Selection)
    requires InOrder(doc, s) && Units(doc.Text()) < U32
    ensures ShownWell(doc, s, Control(doc, s))
  {
    var base: Doc, start: nat, end: nat :|
      && doc.Covers(base) && start <= end <= |base.Items()|
      && s == Select(base, start, end, s.direction, s.isComposing);
    SelectionNeverInverts(base, start, end, s.direction, s.isComposing, doc);
    var text := doc.Text();
    var p, q := CursorPosition(doc, s.start).value, CursorPosition(doc, s.end).value;
    UnitsMonotone(text, p, q);
    OffsetsInverse(text, p, Units(text[..p]));
    OffsetsInverse(text, q, Units(text[..q]));
    assert Begins(text, p, Units(text[..p])) && Begins(text, q, Units(text[..q]));
  }

  /** The text, and offsets in order, within it, between scalars, and one where the
    * selection is one cursor. */
  ghost predicate ShownWell(doc: Doc, s: Selection, shown: Result<ControlState, Fault>) {
    && shown.Ok? && shown.value.value == doc.Text()
    && shown.value.selectionStart <= shown.value.selectionEnd <= Units(doc.Text())
    && (s.start == s.end ==> shown.value.selectionStart == shown.value.selectionEnd)
    && (exists p, q :: Begins(doc.Text(), p, shown.value.selectionStart)
                    && Begins(doc.Text(), q, shown.value.selectionEnd))
  }

  lemma UnitsMonotone(text: string, p: nat, q: nat)
    requires p <= q <= |text|
    ensures Units(text[..p]) <= Units(text[..q]) <= Units(text)
  {
    assert text[..|text|] == text;
    if p < q { UnitsAscend(text, p, q); }
    if q < |text| { UnitsAscend(text, q, |text|); }
  }

  /** The document after `input`: the diff, spliced in. */
  function Edited(doc: Doc, value: string, added: seq<Elem>): Doc {
    var d := Diff(doc.Text(), value);
    SpliceText(doc, d.start, d.deleted, added)
  }

  /** The changes `input` answers: one, carrying the edit, or none. */
  function Edits(doc: Doc, value: string, added: seq<Elem>): seq<Doc> {
    var d := Diff(doc.Text(), value);
    var change := Change(doc, d.start, d.deleted, added);
    if change == Doc({}, {}) then [] else [change]
  }

  /** Offsets in order name positions in order. */
  lemma CapturedInOrder(doc: Doc, state: ControlState, start: nat, end: nat)
    requires Captures(doc, state, start, end) && state.selectionStart <= state.selectionEnd
    ensures InOrder(doc, Select(doc, start, end, state.direction, state.isComposing))
  {
    if end < start { UnitsAscend(state.value, end, start); }
    var s := Select(doc, start, end, state.direction, state.isComposing);
    assert s == Select(doc, start, end, s.direction, s.isComposing);
  }

  class MarkdownDocument {
    var doc: Doc
    var selection: Selection

    ghost predicate Ordered()
      reads this
    {
      InOrder(doc, selection)
    }

    constructor ()
      ensures doc == Doc({}, {}) && selection == Selection(Start, Start, NoDirection, false) && Ordered()
    {
      doc := Doc({}, {});
      selection := Selection(Start, Start, NoDirection, false);
      new;
      assert selection == Select(doc, 0, 0, selection.direction, selection.isComposing);
    }

    method MergeSnapshot(bytes: Snapshot) returns (r: Result<bool, Fault>)
      modifies this
      ensures selection == old(selection) && doc == Merge(old(doc), Loads(bytes))
      ensures bytes.History? || bytes.Bodiless? ==>
                doc.elems == old(doc.elems) + bytes.doc.elems && doc.removed == old(doc.removed) + bytes.doc.removed
      ensures bytes.NoBytes? || bytes.Malformed? ==> doc == old(doc)
      ensures old(Ordered()) ==> Ordered()
      ensures r == match bytes { case NoBytes => Ok(false) case Malformed => Err(BadSnapshot)
                                 case History(hasBody, _) => Ok(hasBody) case Bodiless(_) => Err(BodyMissing) }
    {
      ghost var before := doc;
      match bytes {
        case NoBytes => r := Ok(false);
        case Malformed => r := Err(BadSnapshot);
        case History(hasBody, remote) =>
          doc := Merge(doc, remote);
          r := Ok(hasBody);
        case Bodiless(remote) =>
          doc := Merge(doc, remote);
          r := Err(BodyMissing);
      }
      assert Merge(before, Doc({}, {})) == before;
      if InOrder(before, selection) { InOrderLater(before, selection, doc); }
    }

    /** A selection that was captured in order is shown in order, whatever was merged and
      * typed since. */
    method ShownState() returns (r: Result<ControlState, Fault>)
      ensures r == Control(doc, selection)
      ensures Ordered() && Units(doc.Text()) < U32 ==> ShownWell(doc, selection, r)
    {
      r := Control(doc, selection);
      if Ordered() && Units(doc.Text()) < U32 { InOrderShown(doc, selection); }
    }

    /** Keeps the selection it had unless it can place both ends. */
    method CaptureSelection(state: ControlState) returns (r: Result<(), Fault>)
      requires state.selectionStart < U32 && state.selectionEnd < U32
      modifies this
      ensures doc == old(doc)
      ensures doc.Text() != state.value ==> r == Err(StaleSnapshot)
      ensures r.Err? ==> selection == old(selection)
      ensures Units(state.value) < U32 ==> (r.Ok? <==> Placeable(doc, state))
      ensures Units(state.value) < U32 && r.Ok? ==>
                exists start: nat, end: nat | Captures(doc, state, start, end) ::
                  selection == Select(doc, start, end, state.direction, state.isComposing)
      ensures Units(state.value) < U32 && state.selectionStart <= state.selectionEnd && old(Ordered()) ==> Ordered()
    {
      var value := doc.Text();
      if value != state.value {
        return Err(StaleSnapshot);
      }
      var start := Utf16ToScalar(value, state.selectionStart);
      assert start.Err? && Units(value) < U32 ==> forall p: nat :: !Begins(value, p, state.selectionStart);
      if start.Err? {
        return Err(Offset(start.error));
      }
      var end := Utf16ToScalar(value, state.selectionEnd);
      assert end.Err? && Units(value) < U32 ==> forall p: nat :: !Begins(value, p, state.selectionEnd);
      if end.Err? {
        return Err(Offset(end.error));
      }
      assert Units(value) < U32 ==> Captures(doc, state, start.value, end.value);
      selection := Select(doc, start.value, end.value, state.direction, state.isComposing);
      if Units(value) < U32 && state.selectionStart <= state.selectionEnd {
        CapturedInOrder(doc, state, start.value, end.value);
      }
      return Ok(());
    }

    /** `added` is what Automerge allots for the scalars the diff inserts. The text
      * becomes the browser's whatever its selection says; the changes are answered
      * only if the selection could be placed. */
    method Input(state: ControlState, added: seq<Elem>) returns (r: Result<seq<Doc>, Fault>)
      requires state.selectionStart < U32 && state.selectionEnd < U32
      requires Fits(doc, Diff(doc.Text(), state.value).start, Inserted(doc.Text(), state.value), added)
      modifies this
      ensures doc == Edited(old(doc), state.value, added) && doc.Text() == state.value
      ensures r.Ok? ==> r.value == Edits(old(doc), state.value, added)
      ensures r.Err? ==> selection == old(selection)
      ensures Units(state.value) < U32 ==> (r.Ok? <==> Placeable(doc, state))
      ensures Units(state.value) < U32 && r.Ok? ==>
                exists start: nat, end: nat | Captures(doc, state, start, end) ::
                  selection == Select(doc, start, end, state.direction, state.isComposing)
      ensures Units(state.value) < U32 && state.selectionStart <= state.selectionEnd && old(Ordered()) ==> Ordered()
    {
      ghost var before := doc;
      var edits := Edits(doc, state.value, added);
      EditedText(doc, state.value, added);
      doc := Edited(doc, state.value, added);
      if InOrder(before, selection) { InOrderLater(before, selection, doc); }
      var captured := CaptureSelection(state);
      r := if captured.Err? then Err(captured.error) else Ok(edits);
    }
  }

  lemma EditedText(doc: Doc, value: string, added: seq<Elem>)
    requires Fits(doc, Diff(doc.Text(), value).start, Inserted(doc.Text(), value), added)
    ensures Edited(doc, value, added).Text() == value
  {
    var d := Diff(doc.Text(), value);
    DiffCorrect(doc.Text(), value);
    SpliceTexts(doc, d.start, d.deleted, Inserted(doc.Text(), value), added);
  }

  /** The changes take the old document to the new one, and there are none exactly
    * when the text was already so. */
  lemma EditsCarryTheEdit(doc: Doc, value: string, added: seq<Elem>)
    requires Fits(doc, Diff(doc.Text(), value).start, Inserted(doc.Text(), value), added)
    ensures Edits(doc, value, added) == [] <==> doc.Text() == value
    ensures Edits(doc, value, added) == [] ==> Edited(doc, value, added) == doc
    ensures Edits(doc, value, added) != [] ==> Merge(doc, Edits(doc, value, added)[0]) == Edited(doc, value, added)
  {
    var d := Diff(doc.Text(), value);
    NoChange(doc.Text(), value);
    ChangeIsDifference(doc, d.start, d.deleted, Inserted(doc.Text(), value), added);
  }

  /** A diff is empty exactly when there is nothing to do. */
  lemma NoChange(oldText: string, newText: string)
    ensures oldText == newText <==> Diff(oldText, newText).deleted == 0 && Inserted(oldText, newText) == ""
  {
    if oldText == newText {
      AgreeingMost(oldText, newText, |oldText|);
    } else {
      DiffCorrect(oldText, newText);
      KeepAll(oldText, Diff(oldText, newText).start);
    }
  }

  lemma KeepAll(text: string, p: nat)
    requires p <= |text|
    ensures Apply(text, p, 0, "") == text
  {
  }

  /** The operations of one edit, as the changes that carry them. */
  function Change(doc: Doc, start: nat, deleted: nat, added: seq<Elem>): (c: Doc)
    requires start + deleted <= |doc.Items()|
  {
    Doc(Members(added), Members(doc.Items()[start..start + deleted]))
  }

  lemma ChangeIsDifference(doc: Doc, start: nat, deleted: nat, chars: string, added: seq<Elem>)
    requires start + deleted <= |doc.Items()| && Fits(doc, start, chars, added)
    ensures Merge(doc, Change(doc, start, deleted, added)) == SpliceText(doc, start, deleted, added)
    ensures Change(doc, start, deleted, added) == Doc({}, {}) <==> deleted == 0 && chars == ""
  {
    var gone := doc.Items()[start..start + deleted];
    assert added != [] ==> added[0] in Members(added);
    assert gone != [] ==> gone[0] in Members(gone);
  }
}
