/** The fake Drive's reader of `multipart/related` uploads (e2e/fake-drive.ts), against
  * the form of section 5.1.1 of RFC 2046. */
module Multipart {
  import opened BitStrings

  const CR: byte := 0x0d
  const LF: byte := 0x0a
  const DASH: byte := 0x2d
  const CRLF: seq<byte> := [CR, LF]
  const BLANK_LINE: seq<byte> := [CR, LF, CR, LF]
  const DASHES: seq<byte> := [DASH, DASH]

  // ---- Finding a needle --------------------------------------------------

  predicate At(hay: seq<byte>, needle: seq<byte>, k: int) {
    0 <= k && k + |needle| <= |hay| && hay[k..k + |needle|] == needle
  }

  ghost predicate Contains(hay: seq<byte>, needle: seq<byte>) {
    exists k :: At(hay, needle, k)
  }

  ghost predicate IsFirst(hay: seq<byte>, needle: seq<byte>, from: nat, r: int) {
    from <= r && At(hay, needle, r) && forall k | from <= k < r :: !At(hay, needle, k)
  }

  /** The first place at or after `from`, or -1. */
  ghost function IndexFrom(hay: seq<byte>, needle: seq<byte>, from: nat): (r: int)
    ensures r == -1 || from <= r <= |hay| - |needle|
  {
    if exists r :: IsFirst(hay, needle, from, r) then
      var r :| IsFirst(hay, needle, from, r);
      r
    else -1
  }

  lemma {:induction false} NoneIsFirst(hay: seq<byte>, needle: seq<byte>, from: nat, k: int)
    requires from <= k && At(hay, needle, k)
    ensures exists r :: IsFirst(hay, needle, from, r)
    decreases k
  {
    if j :| from <= j < k && At(hay, needle, j) {
      NoneIsFirst(hay, needle, from, j);
    } else {
      assert IsFirst(hay, needle, from, k);
    }
  }

  lemma IndexIsFirst(hay: seq<byte>, needle: seq<byte>, from: nat)
    ensures var r := IndexFrom(hay, needle, from);
            (r >= 0 ==> At(hay, needle, r)) && forall k | from <= k && (r >= 0 ==> k < r) :: !At(hay, needle, k)
  {
    forall k | from <= k && At(hay, needle, k) ensures exists r :: IsFirst(hay, needle, from, r) {
      NoneIsFirst(hay, needle, from, k);
    }
  }

  /** There is one first place. */
  lemma FirstIs(hay: seq<byte>, needle: seq<byte>, from: nat, r: int)
    requires IsFirst(hay, needle, from, r)
    ensures IndexFrom(hay, needle, from) == r
  {
    var q := IndexFrom(hay, needle, from);
    assert IsFirst(hay, needle, from, q);
  }

  ghost predicate NoneBetween(hay: seq<byte>, needle: seq<byte>, from: nat, to: nat) {
    forall k | from <= k < to :: !At(hay, needle, k)
  }

  lemma NotHere(hay: seq<byte>, needle: seq<byte>, from: nat, i: nat, j: nat)
    requires NoneBetween(hay, needle, from, i)
    requires i + |needle| <= |hay| && j < |needle| && hay[i + j] != needle[j]
    ensures NoneBetween(hay, needle, from, i + 1)
  {
    assert hay[i..i + |needle|][j] != needle[j];
    forall k | from <= k < i + 1 ensures !At(hay, needle, k) {
      if k == i { assert !At(hay, needle, i); }
    }
  }

  lemma OneMore(hay: seq<byte>, needle: seq<byte>, i: nat, j: nat)
    requires i + j < |hay| && j < |needle| && hay[i..i + j] == needle[..j] && hay[i + j] == needle[j]
    ensures hay[i..i + (j + 1)] == needle[..j + 1]
  {
    assert hay[i..i + (j + 1)] == hay[i..i + j] + [hay[i + j]];
    assert needle[..j + 1] == needle[..j] + [needle[j]];
  }

  method IndexOf(hay: seq<byte>, needle: seq<byte>, from: nat) returns (r: int)
    ensures r == IndexFrom(hay, needle, from)
  {
    IndexIsFirst(hay, needle, from);
    var i := from;
    label outer:
    while i + |needle| <= |hay|
      invariant from <= i && NoneBetween(hay, needle, from, i)
      decreases |hay| - i
    {
      ghost var here := i;
      var j := 0;
      while j < |needle|
        invariant i == here && 0 <= j <= |needle| && hay[i..i + j] == needle[..j]
      {
        if hay[i + j] != needle[j] {
          NotHere(hay, needle, from, i, j);
          i := i + 1;
          continue outer;
        }
        OneMore(hay, needle, i, j);
        j := j + 1;
      }
      FirstIs(hay, needle, from, i);
      return i;
    }
    return -1;
  }

  // ---- Splitting ---------------------------------------------------------

  /** A read past either end is no byte at all. */
  predicate Is(s: seq<byte>, i: int, b: byte) {
    0 <= i < |s| && s[i] == b
  }

  predicate Closes(body: seq<byte>, start: int) {
    Is(body, start, DASH) && Is(body, start + 1, DASH)
  }

  /** What lies past the headers of what lies between two delimiters. */
  ghost function Content(chunk: seq<byte>): (content: seq<byte>) {
    var blank := IndexFrom(chunk, BLANK_LINE, 0);
    var from := if blank >= 0 then blank + 4 else 0;
    var to := |chunk| - if Is(chunk, |chunk| - 2, CR) && Is(chunk, |chunk| - 1, LF) then 2 else 0;
    chunk[from..if from > to then from else to]
  }

  method ContentOf(chunk: seq<byte>) returns (content: seq<byte>)
    ensures content == Content(chunk)
  {
    var blank := IndexOf(chunk, BLANK_LINE, 0);
    var from := if blank >= 0 then blank + 4 else 0;
    var to := |chunk|;
    if Is(chunk, to - 2, CR) && Is(chunk, to - 1, LF) {
      to := to - 2;
    }
    content := chunk[from..if from > to then from else to];
  }

  /** The parts from the delimiter at `i` on. */
  ghost function PartsFrom(body: seq<byte>, marker: seq<byte>, i: int): (parts: seq<seq<byte>>)
    requires |marker| > 0
    decreases |body| - i, body, marker, i
  {
    if i < 0 || i >= |body| then []
    else
      var start := i + |marker|;
      if Closes(body, start) then []
      else
        var next := IndexFrom(body, marker, start);
        if next < 0 then [] else [Content(body[start..next])] + PartsFrom(body, marker, next)
  }

  lemma NextPart(body: seq<byte>, marker: seq<byte>, i: nat)
    requires |marker| > 0 && i + |marker| <= |body|
    ensures Closes(body, i + |marker|) || IndexFrom(body, marker, i + |marker|) < 0 ==>
              PartsFrom(body, marker, i) == []
    ensures !Closes(body, i + |marker|) && IndexFrom(body, marker, i + |marker|) >= 0 ==>
              PartsFrom(body, marker, i) ==
              [Content(body[i + |marker|..IndexFrom(body, marker, i + |marker|)])] +
              PartsFrom(body, marker, IndexFrom(body, marker, i + |marker|))
  {
  }

  function Marker(boundary: seq<byte>): seq<byte> {
    DASHES + boundary
  }

  ghost function Split(body: seq<byte>, boundary: seq<byte>): seq<seq<byte>> {
    PartsFrom(body, Marker(boundary), IndexFrom(body, Marker(boundary), 0))
  }

  lemma NoMore(parts: seq<seq<byte>>, rest: seq<seq<byte>>)
    requires rest == []
    ensures parts + rest == parts
  {
  }

  method SplitMultipart(body: seq<byte>, boundary: seq<byte>) returns (parts: seq<seq<byte>>)
    ensures parts == Split(body, boundary)
  {
    var marker := DASHES + boundary;
    parts := [];
    var i := IndexOf(body, marker, 0);
    ghost var all := PartsFrom(body, marker, i);
    while i >= 0
      invariant -1 <= i <= |body| - |marker| || i == -1
      invariant all == parts + PartsFrom(body, marker, i)
      decreases |body| - i
    {
      var start := i + |marker|;
      NextPart(body, marker, i);
      if Closes(body, start) {
        NoMore(parts, PartsFrom(body, marker, i));
        return;
      }
      var next := IndexOf(body, marker, start);
      if next < 0 {
        NoMore(parts, PartsFrom(body, marker, i));
        return;
      }
      var part := ContentOf(body[start..next]);
      assert parts + ([part] + PartsFrom(body, marker, next)) == (parts + [part]) + PartsFrom(body, marker, next);
      parts := parts + [part];
      i := next;
    }
  }

  // ---- The printed form --------------------------------------------------

  datatype Part = Part(headers: seq<seq<byte>>, body: seq<byte>)

  function Lines(headers: seq<seq<byte>>): seq<byte> {
    if headers == [] then [] else headers[0] + (CRLF + Lines(headers[1..]))
  }

  /** What is printed of a part after its delimiter, up to the next one. */
  function Printed(p: Part): seq<byte> {
    CRLF + (Lines(p.headers) + (CRLF + (p.body + CRLF)))
  }

  /** What is printed after a delimiter with `parts` still to come, and `tail` after the
    * last delimiter. */
  function After(parts: seq<Part>, marker: seq<byte>, tail: seq<byte>): seq<byte>
    decreases |parts|, parts, marker, tail
  {
    if parts == [] then tail
    else Printed(parts[0]) + (marker + After(parts[1..], marker, tail))
  }

  /** A preamble, if there is one, ends its line. */
  function Print(preamble: seq<byte>, parts: seq<Part>, boundary: seq<byte>, epilogue: seq<byte>): seq<byte> {
    preamble + (Marker(boundary) + After(parts, Marker(boundary), DASHES + epilogue))
  }

  function Bodies(parts: seq<Part>): seq<seq<byte>> {
    seq(|parts|, i requires 0 <= i < |parts| => parts[i].body)
  }

  ghost predicate Header(line: seq<byte>, marker: seq<byte>) {
    line != [] && !Contains(line, CRLF) && !Contains(line, marker)
  }

  ghost predicate Headed(p: Part, marker: seq<byte>) {
    forall i | 0 <= i < |p.headers| :: Header(p.headers[i], marker)
  }

  // ---- Splitting undoes printing -----------------------------------------

  lemma CoversOnlyItself(s: seq<byte>, needle: seq<byte>, k: int)
    requires At(s, needle, k)
    ensures forall p | k <= p < k + |needle| :: s[p] in needle
  {
    forall p | k <= p < k + |needle| ensures s[p] in needle {
      assert s[p] == s[k..k + |needle|][p - k];
    }
  }

  lemma AcrossLineBreak(a: seq<byte>, c: seq<byte>, marker: seq<byte>, k: int)
    requires |marker| > 0 && CR !in marker && LF !in marker
    requires At(a + (CRLF + c), marker, k)
    ensures At(a, marker, k) || At(c, marker, k - |a| - 2)
  {
    var s := a + (CRLF + c);
    CoversOnlyItself(s, marker, k);
    assert s[|a|] == CR && s[|a| + 1] == LF;
    if k <= |a| {
      assert a[k..k + |marker|] == s[k..k + |marker|];
    } else {
      assert c[k - |a| - 2..k - |a| - 2 + |marker|] == s[k..k + |marker|];
    }
  }

  lemma LineBreakParts(a: seq<byte>, c: seq<byte>, marker: seq<byte>)
    requires |marker| > 0 && CR !in marker && LF !in marker
    requires !Contains(a, marker) && !Contains(c, marker)
    ensures !Contains(a + (CRLF + c), marker)
  {
    forall k ensures !At(a + (CRLF + c), marker, k) {
      if At(a + (CRLF + c), marker, k) {
        AcrossLineBreak(a, c, marker, k);
      }
    }
  }

  lemma {:induction false} LinesHoldNoMarker(headers: seq<seq<byte>>, marker: seq<byte>)
    requires |marker| > 0 && CR !in marker && LF !in marker
    requires forall i | 0 <= i < |headers| :: Header(headers[i], marker)
    ensures !Contains(Lines(headers), marker)
    decreases |headers|
  {
    if headers != [] {
      LinesHoldNoMarker(headers[1..], marker);
      LineBreakParts(headers[0], Lines(headers[1..]), marker);
    }
  }

  lemma PrintedHoldsNoMarker(p: Part, marker: seq<byte>)
    requires |marker| > 0 && CR !in marker && LF !in marker
    requires Headed(p, marker) && !Contains(p.body, marker)
    ensures !Contains(Printed(p), marker)
  {
    LinesHoldNoMarker(p.headers, marker);
    LineBreakParts(p.body, [], marker);
    assert p.body + (CRLF + []) == p.body + CRLF;
    LineBreakParts(Lines(p.headers), p.body + CRLF, marker);
    LineBreakParts([], Lines(p.headers) + (CRLF + (p.body + CRLF)), marker);
    assert [] + Printed(p) == Printed(p);
  }

  /** Where the first blank line is: a header line has no line break of its own. */
  ghost predicate FirstAt(hay: seq<byte>, needle: seq<byte>, r: int) {
    At(hay, needle, r) && forall k | 0 <= k < r :: !At(hay, needle, k)
  }

  lemma BreakIs(s: seq<byte>, k: int)
    ensures At(s, CRLF, k) <==> 0 <= k < |s| - 1 && s[k] == CR && s[k + 1] == LF
  {
    if 0 <= k < |s| - 1 {
      assert s[k..k + 2] == [s[k], s[k + 1]];
    }
  }

  lemma NoBreakWithin(line: seq<byte>, rest: seq<byte>, k: int)
    requires !Contains(line, CRLF) && rest != [] && rest[0] == CR && 1 <= k < 2 + |line|
    ensures !At(CRLF + (line + rest), CRLF, k)
  {
    var s := CRLF + (line + rest);
    BreakIs(s, k);
    if 2 <= k < 1 + |line| {
      assert !At(line, CRLF, k - 2);
      BreakIs(line, k - 2);
      assert s[k] == line[k - 2] && s[k + 1] == line[k - 1];
    } else if k == 1 {
      assert s[k] == LF;
    } else {
      assert s[k + 1] == CR;
    }
  }

  lemma BlankIsTwoBreaks(s: seq<byte>, k: int)
    ensures At(s, BLANK_LINE, k) <==> At(s, CRLF, k) && At(s, CRLF, k + 2)
  {
    if 0 <= k && k + 4 <= |s| {
      assert s[k..k + 4] == s[k..k + 2] + s[k + 2..k + 4];
      assert BLANK_LINE[..2] == CRLF && BLANK_LINE[2..] == CRLF;
      assert s[k..k + 4][..2] == s[k..k + 2] && s[k..k + 4][2..] == s[k + 2..k + 4];
    }
  }

  lemma NoBlankWithin(line: seq<byte>, rest: seq<byte>, k: nat)
    requires line != [] && !Contains(line, CRLF) && rest != [] && rest[0] == CR && k < 2 + |line|
    ensures !At(CRLF + (line + rest), BLANK_LINE, k)
  {
    BlankIsTwoBreaks(CRLF + (line + rest), k);
    NoBreakWithin(line, rest, if k == 0 then 2 else k);
  }

  lemma {:induction false} HeadersEnd(headers: seq<seq<byte>>, rest: seq<byte>)
    requires forall i | 0 <= i < |headers| :: headers[i] != [] && !Contains(headers[i], CRLF)
    ensures FirstAt(CRLF + (Lines(headers) + (CRLF + rest)), BLANK_LINE, |Lines(headers)|)
    decreases |headers|
  {
    var s := CRLF + (Lines(headers) + (CRLF + rest));
    if headers == [] {
      assert s[0..4] == BLANK_LINE;
    } else {
      var line := headers[0];
      var tail := CRLF + (Lines(headers[1..]) + (CRLF + rest));
      HeadersEnd(headers[1..], rest);
      var c := |CRLF + line|;
      assert s == CRLF + (line + tail) == (CRLF + line) + tail;
      AtAfter(CRLF + line, tail, BLANK_LINE, |Lines(headers[1..])|);
      forall k | 0 <= k < |Lines(headers)| ensures !At(s, BLANK_LINE, k) {
        if k < c {
          NoBlankWithin(line, tail, k);
        } else {
          AtAfter(CRLF + line, tail, BLANK_LINE, k - c);
        }
      }
    }
  }

  lemma ContentOfPrinted(p: Part)
    requires forall i | 0 <= i < |p.headers| :: p.headers[i] != [] && !Contains(p.headers[i], CRLF)
    ensures Content(Printed(p)) == p.body
  {
    var chunk := Printed(p);
    HeadersEnd(p.headers, p.body + CRLF);
    IndexIsFirst(chunk, BLANK_LINE, 0);
    assert IndexFrom(chunk, BLANK_LINE, 0) == |Lines(p.headers)|;
    assert chunk[|chunk| - 2] == CR && chunk[|chunk| - 1] == LF;
    assert chunk[|Lines(p.headers)| + 4..|chunk| - 2] == p.body;
  }

  lemma AtAfter(front: seq<byte>, tail: seq<byte>, needle: seq<byte>, k: nat)
    ensures At(front + tail, needle, |front| + k) <==> At(tail, needle, k)
  {
    if k + |needle| <= |tail| {
      assert (front + tail)[|front| + k..|front| + k + |needle|] == tail[k..k + |needle|];
    }
  }

  /** A line that ends before a delimiter holds no part of it. */
  lemma OccursInLine(front: seq<byte>, line: seq<byte>, rest: seq<byte>, marker: seq<byte>, k: int)
    requires LF !in marker && line != [] && line[|line| - 1] == LF
    requires |front| <= k < |front| + |line| && At(front + (line + rest), marker, k)
    ensures At(line, marker, k - |front|)
  {
    var s := front + (line + rest);
    CoversOnlyItself(s, marker, k);
    assert s[|front| + |line| - 1] == LF;
    assert line[k - |front|..k - |front| + |marker|] == s[k..k + |marker|];
  }

  lemma NextDelimiter(front: seq<byte>, line: seq<byte>, tail: seq<byte>, marker: seq<byte>)
    requires LF !in marker && (line == [] || line[|line| - 1] == LF) && !Contains(line, marker)
    ensures IndexFrom(front + (line + (marker + tail)), marker, |front|) == |front| + |line|
  {
    var s := front + (line + (marker + tail));
    var end := |front| + |line|;
    assert s[end..end + |marker|] == marker;
    assert At(s, marker, end);
    forall k | |front| <= k < end ensures !At(s, marker, k) {
      if At(s, marker, k) {
        OccursInLine(front, line, marker + tail, marker, k);
      }
    }
    IndexIsFirst(s, marker, |front|);
  }

  lemma Regroup(a: seq<byte>, b: seq<byte>, c: seq<byte>)
    ensures a + (b + c) == (a + b) + c
  {
  }

  /** A chunk that does not begin with a dash is read as a part. */
  lemma {:induction false} OnePart(s: seq<byte>, i: nat, chunk: seq<byte>, marker: seq<byte>)
    requires |marker| > 0 && i + |marker| + |chunk| <= |s| && chunk != [] && chunk[0] == CR
    requires s[i + |marker|..i + |marker| + |chunk|] == chunk
    requires IndexFrom(s, marker, i + |marker|) == i + |marker| + |chunk|
    ensures PartsFrom(s, marker, i) == [Content(chunk)] + PartsFrom(s, marker, i + |marker| + |chunk|)
  {
    assert s[i + |marker|] == CR;
    NextPart(s, marker, i);
  }

  lemma Middle(a: seq<byte>, b: seq<byte>, c: seq<byte>)
    ensures (a + (b + c))[|a|..|a| + |b|] == b
  {
  }

  lemma EndsLine(p: Part)
    ensures Printed(p) != [] && Printed(p)[0] == CR && Printed(p)[|Printed(p)| - 1] == LF
  {
  }

  /** Of any input: what stands between a delimiter and the next is a part, and reading goes
    * on there; but two dashes after a delimiter end it, whatever comes. */
  lemma {:induction false} ReadsOn(body: seq<byte>, marker: seq<byte>, i: nat, next: nat)
    requires |marker| > 0 && i + |marker| <= next <= |body| && IsFirst(body, marker, i + |marker|, next)
    ensures PartsFrom(body, marker, i) ==
            if Closes(body, i + |marker|) then []
            else [Content(body[i + |marker|..next])] + PartsFrom(body, marker, next)
  {
    FirstIs(body, marker, i + |marker|, next);
    NextPart(body, marker, i);
  }

  lemma ClosesMeans(body: seq<byte>, start: nat)
    ensures Closes(body, start) <==> start + 2 <= |body| && body[start..start + 2] == [0x2d, 0x2d]
  {
  }

  /** What stands after the last delimiter: it is closed there, or there are no more. */
  ghost predicate Ends(tail: seq<byte>, marker: seq<byte>) {
    Closes(tail, 0) || !Contains(tail, marker)
  }

  lemma {:induction false} LastDelimiter(front: seq<byte>, marker: seq<byte>, tail: seq<byte>)
    requires |marker| > 0 && Ends(tail, marker)
    ensures PartsFrom((front + marker) + tail, marker, |front|) == []
  {
    var s := (front + marker) + tail;
    var start := |front + marker|;
    NextPart(s, marker, |front|);
    if Closes(tail, 0) {
      assert s[start] == tail[0] && s[start + 1] == tail[1];
    } else {
      NoneAfter(front + marker, tail, marker);
    }
  }

  lemma NoneAfter(front: seq<byte>, tail: seq<byte>, marker: seq<byte>)
    requires !Contains(tail, marker)
    ensures IndexFrom(front + tail, marker, |front|) == -1
  {
    IndexIsFirst(front + tail, marker, |front|);
    var next := IndexFrom(front + tail, marker, |front|);
    if next >= 0 { AtAfter(front, tail, marker, next - |front|); }
  }

  lemma {:induction false} FirstPart(front: seq<byte>, parts: seq<Part>, marker: seq<byte>, tail: seq<byte>)
    requires |marker| > 0 && CR !in marker && LF !in marker && parts != []
    requires Headed(parts[0], marker) && !Contains(parts[0].body, marker)
    ensures var next := front + marker + Printed(parts[0]);
            PartsFrom(front + (marker + After(parts, marker, tail)), marker, |front|) ==
            [parts[0].body] + PartsFrom(next + (marker + After(parts[1..], marker, tail)), marker, |next|)
  {
    var p, more := parts[0], After(parts[1..], marker, tail);
    Regroup(front, marker, Printed(p) + (marker + more));
    PrintedHoldsNoMarker(p, marker);
    EndsLine(p);
    PartBetween(front + marker, Printed(p), marker, more, |front|);
    ContentOfPrinted(p);
    Regroup(front + marker, Printed(p), marker + more);
  }

  lemma {:induction false} PartBetween(start: seq<byte>, chunk: seq<byte>, marker: seq<byte>, more: seq<byte>, i: nat)
    requires |marker| > 0 && LF !in marker && |start| == i + |marker|
    requires chunk != [] && chunk[0] == CR && chunk[|chunk| - 1] == LF && !Contains(chunk, marker)
    ensures var s := start + (chunk + (marker + more));
            PartsFrom(s, marker, i) == [Content(chunk)] + PartsFrom(s, marker, |start + chunk|)
  {
    NextDelimiter(start, chunk, more, marker);
    Middle(start, chunk, marker + more);
    OnePart(start + (chunk + (marker + more)), i, chunk, marker);
  }

  lemma BodiesFrom(parts: seq<Part>)
    requires parts != []
    ensures Bodies(parts) == [parts[0].body] + Bodies(parts[1..])
  {
  }

  lemma {:induction false} PartsUndoPrint(front: seq<byte>, parts: seq<Part>, marker: seq<byte>, tail: seq<byte>)
    requires |marker| > 0 && CR !in marker && LF !in marker && Ends(tail, marker)
    requires forall i | 0 <= i < |parts| :: Headed(parts[i], marker) && !Contains(parts[i].body, marker)
    ensures PartsFrom(front + (marker + After(parts, marker, tail)), marker, |front|) == Bodies(parts)
    decreases |parts|
  {
    if parts == [] {
      Regroup(front, marker, tail);
      LastDelimiter(front, marker, tail);
    } else {
      FirstPart(front, parts, marker, tail);
      PartsUndoPrint(front + marker + Printed(parts[0]), parts[1..], marker, tail);
      BodiesFrom(parts);
    }
  }

  ghost predicate NoneHolds(parts: seq<seq<byte>>, marker: seq<byte>) {
    forall k | 0 <= k < |parts| :: !Contains(parts[k], marker)
  }

  lemma NoneMoreHolds(part: seq<byte>, parts: seq<seq<byte>>, marker: seq<byte>)
    requires !Contains(part, marker) && NoneHolds(parts, marker)
    ensures NoneHolds([part] + parts, marker)
  {
  }

  lemma {:induction false} PartsHoldNoMarker(body: seq<byte>, marker: seq<byte>, i: nat)
    requires |marker| > 0 && i + |marker| <= |body|
    ensures NoneHolds(PartsFrom(body, marker, i), marker)
    decreases |body| - i
  {
    var start := i + |marker|;
    var next := IndexFrom(body, marker, start);
    NextPart(body, marker, i);
    IndexIsFirst(body, marker, start);
    if !Closes(body, start) && next >= 0 {
      PartsHoldNoMarker(body, marker, next);
      ContentHoldsNoMarker(body, marker, start, next);
      NoneMoreHolds(Content(body[start..next]), PartsFrom(body, marker, next), marker);
    }
  }

  lemma SliceOfSlice(s: seq<byte>, lo: nat, hi: nat, k: nat, n: nat)
    requires lo <= hi <= |s| && k + n <= hi - lo
    ensures s[lo..hi][k..k + n] == s[lo + k..lo + k + n]
  {
    var t := s[lo..hi];
    assert forall i | 0 <= i < |t| :: t[i] == s[lo + i];
    assert t[k..k + n] == s[lo + k..lo + k + n];
  }

  lemma SliceHolds(body: seq<byte>, marker: seq<byte>, lo: nat, hi: nat)
    requires |marker| > 0 && lo <= hi <= |body| && forall k | lo <= k < hi :: !At(body, marker, k)
    ensures !Contains(body[lo..hi], marker)
  {
    forall k ensures !At(body[lo..hi], marker, k) {
      if 0 <= k && k + |marker| <= hi - lo {
        SliceOfSlice(body, lo, hi, k, |marker|);
        assert !At(body, marker, lo + k);
      }
    }
  }

  lemma ContentSlice(chunk: seq<byte>) returns (from: nat, to: nat)
    ensures from <= to <= |chunk| && Content(chunk) == chunk[from..to]
  {
    var blank := IndexFrom(chunk, BLANK_LINE, 0);
    from := if blank >= 0 then blank + 4 else 0;
    to := from + |Content(chunk)|;
  }

  lemma ContentHoldsNoMarker(body: seq<byte>, marker: seq<byte>, start: nat, next: nat)
    requires |marker| > 0 && start <= next <= |body| && forall k | start <= k < next :: !At(body, marker, k)
    ensures !Contains(Content(body[start..next]), marker)
  {
    var from, to := ContentSlice(body[start..next]);
    SliceOfSlice(body, start, next, from, to - from);
    SliceHolds(body, marker, start + from, start + to);
  }

  /** Splitting undoes printing, exactly when no body holds the delimiter: whatever else
    * the bodies hold, and whatever stands before and after the parts. */
  lemma SplitUndoesPrint(preamble: seq<byte>, parts: seq<Part>, boundary: seq<byte>, epilogue: seq<byte>)
    requires CR !in boundary && LF !in boundary
    requires preamble == [] || preamble[|preamble| - 1] == LF
    requires !Contains(preamble, Marker(boundary))
    requires forall i | 0 <= i < |parts| :: Headed(parts[i], Marker(boundary))
    ensures Split(Print(preamble, parts, boundary, epilogue), boundary) == Bodies(parts)
       <==> forall i | 0 <= i < |parts| :: !Contains(parts[i].body, Marker(boundary))
  {
    var marker := Marker(boundary);
    var s := Print(preamble, parts, boundary, epilogue);
    FirstDelimiter(preamble, boundary, After(parts, marker, DASHES + epilogue));
    if forall i | 0 <= i < |parts| :: !Contains(parts[i].body, marker) {
      PartsUndoPrint(preamble, parts, marker, DASHES + epilogue);
    } else {
      IndexIsFirst(s, marker, 0);
      PartsHoldNoMarker(s, marker, |preamble|);
      var i :| 0 <= i < |parts| && Contains(parts[i].body, marker);
      assert Bodies(parts)[i] == parts[i].body;
    }
  }

  lemma FirstDelimiter(preamble: seq<byte>, boundary: seq<byte>, rest: seq<byte>)
    requires LF !in boundary && (preamble == [] || preamble[|preamble| - 1] == LF)
    requires !Contains(preamble, Marker(boundary))
    ensures IndexFrom(preamble + (Marker(boundary) + rest), Marker(boundary), 0) == |preamble|
  {
    var marker := Marker(boundary);
    NextDelimiter([], preamble, rest, marker);
    assert [] + (preamble + (marker + rest)) == preamble + (marker + rest);
  }

  /** What follows the last delimiter of an upload that is cut short is no part, whole or
    * not; and the parts before it are there. */
  lemma CutShort(preamble: seq<byte>, parts: seq<Part>, boundary: seq<byte>, rest: seq<byte>)
    requires CR !in boundary && LF !in boundary
    requires preamble == [] || preamble[|preamble| - 1] == LF
    requires !Contains(preamble, Marker(boundary)) && !Contains(rest, Marker(boundary))
    requires forall i | 0 <= i < |parts| ::
               Headed(parts[i], Marker(boundary)) && !Contains(parts[i].body, Marker(boundary))
    ensures Split(preamble + (Marker(boundary) + After(parts, Marker(boundary), rest)), boundary) == Bodies(parts)
  {
    FirstDelimiter(preamble, boundary, After(parts, Marker(boundary), rest));
    PartsUndoPrint(preamble, parts, Marker(boundary), rest);
  }

  // ---- What a part is, of any input --------------------------------------

  /** `c` is `s` without the line break it may end in. */
  ghost predicate Trims(s: seq<byte>, c: seq<byte>) {
    s == c + CRLF || (s == c && !At(s, CRLF, |s| - 2))
  }

  lemma TrimsOne(s: seq<byte>, to: nat)
    requires to <= |s| && to == |s| - if Is(s, |s| - 2, CR) && Is(s, |s| - 1, LF) then 2 else 0
    ensures Trims(s, s[..to])
  {
    BreakIs(s, |s| - 2);
    if to < |s| { assert s[to..] == CRLF; } else { assert s[..to] == s; }
  }

  /** Past the first blank line if there is one, and without a line break at the end. */
  lemma ContentIs(chunk: seq<byte>, k: nat)
    ensures !Contains(chunk, BLANK_LINE) ==> Trims(chunk, Content(chunk))
    ensures FirstAt(chunk, BLANK_LINE, k) ==> Trims(chunk[k + 4..], Content(chunk))
  {
    IndexIsFirst(chunk, BLANK_LINE, 0);
    if !Contains(chunk, BLANK_LINE) {
      assert IndexFrom(chunk, BLANK_LINE, 0) == -1;
      TrimsOne(chunk, |Content(chunk)|);
    }
    if FirstAt(chunk, BLANK_LINE, k) {
      assert IndexFrom(chunk, BLANK_LINE, 0) == k;
      PastBlank(chunk, k);
    }
  }

  lemma PastBlank(chunk: seq<byte>, k: nat)
    requires At(chunk, BLANK_LINE, k) && IndexFrom(chunk, BLANK_LINE, 0) == k
    ensures Trims(chunk[k + 4..], Content(chunk))
  {
    var rest := chunk[k + 4..];
    var to := |rest| - if Is(rest, |rest| - 2, CR) && Is(rest, |rest| - 1, LF) then 2 else 0;
    assert chunk[k..k + 4][3] == LF;
    if |rest| >= 2 {
      assert rest[|rest| - 1] == chunk[|chunk| - 1] && rest[|rest| - 2] == chunk[|chunk| - 2];
    }
    TrimsOne(rest, to);
    assert Content(chunk) == rest[..to];
  }
}
