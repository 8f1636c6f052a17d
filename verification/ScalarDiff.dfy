/** The markdown editor's text arithmetic, apps/markdown/src/lib.rs: the one splice
  * that turns the old text into the new one, and offsets counted in UTF-16 units
  * against positions counted in scalar values. A Dafny `char` is a Unicode scalar
  * value, so a `string` here is what a Rust `str` is. */
module ScalarDiff {
  import opened Wrappers
  import opened Words

  // ---- UTF-8 -------------------------------------------------------------

  function Utf8Len(c: char): (n: nat)
    ensures 1 <= n <= 4
  {
    if c < '\U{80}' then 1 else if c < '\U{800}' then 2 else if c < '\U{10000}' then 3 else 4
  }

  /** The encoding of one scalar value: section 3 of RFC 3629. */
  function Utf8Char(c: char): (b: seq<nat>)
    ensures |b| == Utf8Len(c)
  {
    var v := c as nat;
    if v < 0x80 then [v]
    else if v < 0x800 then [0xC0 + v / 64, 0x80 + v % 64]
    else if v < 0x1_0000 then [0xE0 + v / 4096, 0x80 + v / 64 % 64, 0x80 + v % 64]
    else [0xF0 + v / 0x4_0000, 0x80 + v / 4096 % 64, 0x80 + v / 64 % 64, 0x80 + v % 64]
  }

  /** A byte after the first. */
  predicate Continues(b: nat) {
    0x80 <= b < 0xC0
  }

  lemma Sixes(v: nat)
    ensures v == v / 4096 * 4096 + v / 64 % 64 * 64 + v % 64
    ensures v / 4096 == v / 0x4_0000 * 64 + v / 4096 % 64
  {
    Sixty(v);
    Sixty(v / 64);
    Sixty(v / 4096);
  }

  lemma Sixty(v: nat)
    ensures v / 64 * 64 + v % 64 == v && v / 64 / 64 == v / 4096 && v / 4096 / 64 == v / 0x4_0000
  {
  }

  /** The value whose bytes these are: section 3 of RFC 3629. */
  function Utf8Value(b: seq<nat>): nat
    requires |b| > 0
  {
    if |b| == 1 then b[0]
    else if |b| == 2 then b[0] % 32 * 64 + b[1] % 64
    else if |b| == 3 then b[0] % 16 * 4096 + b[1] % 64 * 64 + b[2] % 64
    else if |b| == 4 then b[0] % 8 * 0x4_0000 + b[1] % 64 * 4096 + b[2] % 64 * 64 + b[3] % 64
    else 0
  }

  /** The first byte tells how many there are. */
  predicate Starts(b: nat, size: nat) {
    match size
    case 1 => b < 0x80
    case 2 => 0xC0 <= b < 0xE0
    case 3 => 0xE0 <= b < 0xF0
    case 4 => 0xF0 <= b < 0xF8
    case _ => false
  }

  /** The bytes read back as the scalar they are of, and no fewer would do. */
  lemma Utf8CharReads(c: char)
    ensures var b, v := Utf8Char(c), c as nat;
            && Utf8Value(b) == v && Starts(b[0], |b|) && (forall i | 1 <= i < |b| :: Continues(b[i]))
            && (|b| > 1 ==> v >= 0x80) && (|b| > 2 ==> v >= 0x800) && (|b| > 3 ==> v >= 0x1_0000)
  {
    var v := c as nat;
    Sixes(v);
    if v < 0x80 {
    } else if v < 0x800 {
      ReadTwo(v, v / 64, v % 64);
    } else if v < 0x1_0000 {
      ReadThree(v, v / 4096, v / 64 % 64, v % 64);
    } else {
      ReadFour(v, v / 0x4_0000, v / 4096 % 64, v / 64 % 64, v % 64);
    }
  }

  lemma ReadTwo(v: nat, x: nat, y: nat)
    requires v == x * 64 + y < 0x800 && y < 64
    ensures var b := [0xC0 + x, 0x80 + y]; Utf8Value(b) == v && Starts(b[0], 2) && Continues(b[1])
  {
  }

  lemma ReadThree(v: nat, x: nat, y: nat, z: nat)
    requires v == x * 4096 + y * 64 + z < 0x1_0000 && y < 64 && z < 64
    ensures var b := [0xE0 + x, 0x80 + y, 0x80 + z];
            Utf8Value(b) == v && Starts(b[0], 3) && Continues(b[1]) && Continues(b[2])
  {
  }

  lemma ReadFour(v: nat, w: nat, x: nat, y: nat, z: nat)
    requires v == (w * 64 + x) * 4096 + y * 64 + z < 0x20_0000 && x < 64 && y < 64 && z < 64
    ensures var b := [0xF0 + w, 0x80 + x, 0x80 + y, 0x80 + z];
            Utf8Value(b) == v && Starts(b[0], 4) && Continues(b[1]) && Continues(b[2]) && Continues(b[3])
  {
  }

  function Utf8(s: string): (b: seq<nat>) {
    if s == "" then [] else Utf8(s[..|s| - 1]) + Utf8Char(s[|s| - 1])
  }

  /** `s.char_indices().nth(k)`'s byte, or the length of `s` past its last scalar. */
  function ByteIndex(s: string, k: nat): (b: nat) {
    if k >= |s| then |Utf8(s)| else |Utf8(s[..k])|
  }

  lemma Joined(a: seq<nat>, b: seq<nat>, c: seq<nat>)
    ensures a + b + c == a + (b + c)
  {
  }

  lemma {:induction false} Utf8Append(s: string, t: string)
    ensures Utf8(s + t) == Utf8(s) + Utf8(t)
  {
    if t == "" {
      assert s + t == s;
    } else {
      var front, last := t[..|t| - 1], Utf8Char(t[|t| - 1]);
      Utf8Append(s, front);
      assert (s + t)[..|s + t| - 1] == s + front && (s + t)[|s + t| - 1] == t[|t| - 1];
      assert Utf8(s + t) == Utf8(s + front) + last;
      Joined(Utf8(s), Utf8(front), last);
    }
  }

  /** Bytes `lo` to `hi` of the encoded `s` are the scalars `piece`, whole. */
  ghost predicate Slices(s: string, lo: nat, hi: nat, piece: string) {
    exists front, back :: s == front + piece + back && lo == |Utf8(front)| && hi == |Utf8(front + piece)|
  }

  lemma SlicesMeans(s: string, lo: nat, hi: nat, piece: string)
    requires Slices(s, lo, hi, piece)
    ensures lo <= hi <= |Utf8(s)| && Utf8(s)[lo..hi] == Utf8(piece)
  {
    var front, back :| s == front + piece + back && lo == |Utf8(front)| && hi == |Utf8(front + piece)|;
    Utf8Append(front + piece, back);
    Utf8Append(front, piece);
  }

  /** Slicing the encoded text between two scalars' bytes is slicing the scalars. */
  lemma SliceOnBoundaries(s: string, i: nat, j: nat)
    requires i <= j <= |s|
    ensures Slices(s, ByteIndex(s, i), ByteIndex(s, j), s[i..j])
  {
    assert s[..|s|] == s;
    assert s == s[..i] + s[i..j] + s[j..];
    assert s[..i] + s[i..j] == s[..j];
  }

  // ---- The diff ----------------------------------------------------------

  /** `zip(a, b).take_while(==).count()`. */
  function Agreeing(a: string, b: string): (n: nat)
    ensures n <= |a| && n <= |b|
  {
    if a == "" || b == "" || a[0] != b[0] then 0 else 1 + Agreeing(a[1..], b[1..])
  }

  lemma {:induction false} AgreeingAgrees(a: string, b: string)
    ensures a[..Agreeing(a, b)] == b[..Agreeing(a, b)]
  {
    var n := Agreeing(a, b);
    if n > 0 {
      AgreeingAgrees(a[1..], b[1..]);
      assert a[..n] == [a[0]] + a[1..][..n - 1] && b[..n] == [b[0]] + b[1..][..n - 1];
    }
  }

  function Reverse(s: string): (r: string)
    ensures |r| == |s| && forall i | 0 <= i < |s| :: r[i] == s[|s| - 1 - i]
  {
    seq(|s|, i requires 0 <= i < |s| => s[|s| - 1 - i])
  }

  /** How many scalars the two texts share at the front, and then at the back. */
  function Prefix(oldText: string, newText: string): (p: nat)
    ensures p <= |oldText| && p <= |newText|
  {
    Agreeing(oldText, newText)
  }

  function Suffix(oldText: string, newText: string): (n: nat)
    ensures n <= |oldText| - Prefix(oldText, newText) && n <= |newText| - Prefix(oldText, newText)
  {
    var p := Prefix(oldText, newText);
    Agreeing(Reverse(oldText[p..]), Reverse(newText[p..]))
  }

  /** `(prefix, deleted, start_byte, end_byte)`: where to splice, how many scalars go,
    * and the bytes of `newText` that come in their place. */
  datatype Splice = Splice(start: nat, deleted: nat, startByte: nat, endByte: nat)

  function Diff(oldText: string, newText: string): (d: Splice)
    ensures d.start + d.deleted <= |oldText|
  {
    var prefix, suffix := Prefix(oldText, newText), Suffix(oldText, newText);
    Splice(prefix, |oldText| - prefix - suffix, ByteIndex(newText, prefix), ByteIndex(newText, |newText| - suffix))
  }

  /** Replacing `deleted` scalars of `text` from `start` by `inserted`. */
  function Apply(text: string, start: nat, deleted: nat, inserted: string): string
    requires start + deleted <= |text|
  {
    text[..start] + inserted + text[start + deleted..]
  }

  lemma SharedFront(oldText: string, newText: string, p: nat)
    requires p == Prefix(oldText, newText)
    ensures oldText[..p] == newText[..p]
  {
    AgreeingAgrees(oldText, newText);
  }

  lemma SharedBack(oldText: string, newText: string, n: nat)
    requires n == Suffix(oldText, newText)
    ensures oldText[|oldText| - n..] == newText[|newText| - n..]
  {
    var p := Prefix(oldText, newText);
    AgreeingAgrees(Reverse(oldText[p..]), Reverse(newText[p..]));
    SameEnds(oldText[p..], newText[p..], n);
    EndOfRest(oldText, p, n);
    EndOfRest(newText, p, n);
  }

  lemma EndOfRest(s: string, p: nat, n: nat)
    requires p <= |s| && n <= |s| - p
    ensures s[|s| - n..] == s[p..][|s[p..]| - n..]
  {
  }

  lemma ThreePieces(s: string, p: nat, e: nat)
    requires p <= e <= |s|
    ensures s == s[..p] + s[p..e] + s[e..]
  {
  }

  lemma SameEnds(a: string, b: string, n: nat)
    requires n <= |a| && n <= |b| && Reverse(a)[..n] == Reverse(b)[..n]
    ensures a[|a| - n..] == b[|b| - n..]
  {
    var x, y := a[|a| - n..], b[|b| - n..];
    forall k | 0 <= k < n ensures x[k] == y[k] {
      assert Reverse(a)[..n][n - 1 - k] == Reverse(b)[..n][n - 1 - k];
    }
  }

  /** The scalars of `newText` between what the two texts share at either end. */
  function Inserted(oldText: string, newText: string): (s: string)
    ensures |s| == |newText| - Prefix(oldText, newText) - Suffix(oldText, newText)
  {
    newText[Prefix(oldText, newText)..|newText| - Suffix(oldText, newText)]
  }

  /** Splicing them into the old text makes the new one. */
  lemma {:induction false} DiffCorrect(oldText: string, newText: string)
    ensures var d := Diff(oldText, newText);
            && d.start + d.deleted <= |oldText|
            && Apply(oldText, d.start, d.deleted, Inserted(oldText, newText)) == newText
  {
    var p, n := Prefix(oldText, newText), Suffix(oldText, newText);
    SharedEnds(oldText, newText, p, n);
    SpliceIs(oldText, newText, Diff(oldText, newText), p, n);
  }

  lemma SpliceIs(oldText: string, newText: string, d: Splice, p: nat, n: nat)
    requires p + n <= |oldText| && p + n <= |newText| && oldText[..p] == newText[..p]
    requires oldText[|oldText| - n..] == newText[|newText| - n..]
    requires d.start == p && d.deleted == |oldText| - p - n
    ensures Apply(oldText, d.start, d.deleted, newText[p..|newText| - n]) == newText
  {
    SplicedWhole(oldText, newText, p, n);
  }

  lemma SharedEnds(oldText: string, newText: string, p: nat, n: nat)
    requires p == Prefix(oldText, newText) && n == Suffix(oldText, newText)
    ensures p + n <= |oldText| && p + n <= |newText| && oldText[..p] == newText[..p]
    ensures oldText[|oldText| - n..] == newText[|newText| - n..]
    ensures Inserted(oldText, newText) == newText[p..|newText| - n]
  {
    SharedFront(oldText, newText, p);
    SharedBack(oldText, newText, n);
  }

  lemma SplicedWhole(oldText: string, newText: string, p: nat, n: nat)
    requires p + n <= |oldText| && p + n <= |newText| && oldText[..p] == newText[..p]
    requires oldText[|oldText| - n..] == newText[|newText| - n..]
    ensures Apply(oldText, p, |oldText| - p - n, newText[p..|newText| - n]) == newText
  {
    ThreePieces(newText, p, |newText| - n);
  }

  /** The bytes sliced out of the new text are whole scalars, exactly those. */
  lemma DiffOnBoundaries(oldText: string, newText: string)
    ensures var d := Diff(oldText, newText);
            Slices(newText, d.startByte, d.endByte, Inserted(oldText, newText))
  {
    SliceOnBoundaries(newText, Prefix(oldText, newText), |newText| - Suffix(oldText, newText));
  }

  lemma {:induction false} AgreeingMost(a: string, b: string, k: nat)
    requires k <= |a| && k <= |b| && a[..k] == b[..k]
    ensures k <= Agreeing(a, b)
  {
    if k > 0 {
      assert a[0] == a[..k][0] && b[0] == b[..k][0];
      assert a[1..][..k - 1] == a[..k][1..] && b[1..][..k - 1] == b[..k][1..];
      AgreeingMost(a[1..], b[1..], k - 1);
    }
  }

  /** A shared end of any splice is no longer than the two shared ends allow. */
  lemma BackMost(oldText: string, newText: string, p: nat, kept: nat, most: nat)
    requires p <= |oldText| && p <= |newText| && kept <= |oldText| && kept <= |newText|
    requires oldText[|oldText| - kept..] == newText[|newText| - kept..]
    requires most <= kept && most <= |oldText| - p && most <= |newText| - p
    ensures most <= Agreeing(Reverse(oldText[p..]), Reverse(newText[p..]))
  {
    var x, y := Reverse(oldText[p..]), Reverse(newText[p..]);
    forall k | 0 <= k < most ensures x[k] == y[k] {
      assert oldText[|oldText| - kept..][kept - 1 - k] == newText[|newText| - kept..][kept - 1 - k];
    }
    assert x[..most] == y[..most];
    AgreeingMost(x, y, most);
  }

  lemma SplicedEnds(oldText: string, newText: string, start: nat, deleted: nat, inserted: string)
    requires start + deleted <= |oldText| && Apply(oldText, start, deleted, inserted) == newText
    ensures var kept := |oldText| - start - deleted;
            && start + kept + |inserted| == |newText|
            && oldText[..start] == newText[..start]
            && oldText[|oldText| - kept..] == newText[|newText| - kept..]
  {
  }

  /** No other contiguous splice that does it deletes and inserts fewer scalars. */
  lemma DiffMinimal(oldText: string, newText: string, start: nat, deleted: nat, inserted: string)
    requires start + deleted <= |oldText| && Apply(oldText, start, deleted, inserted) == newText
    ensures Diff(oldText, newText).deleted + |Inserted(oldText, newText)| <= deleted + |inserted|
  {
    SplicedEnds(oldText, newText, start, deleted, inserted);
    AgreeingMost(oldText, newText, start);
    MostKept(oldText, newText, start, |oldText| - start - deleted);
  }

  lemma MostKept(oldText: string, newText: string, start: nat, kept: nat)
    requires start + kept <= |oldText| && start + kept <= |newText| && start <= Prefix(oldText, newText)
    requires oldText[|oldText| - kept..] == newText[|newText| - kept..]
    ensures start + kept <= Prefix(oldText, newText) + Suffix(oldText, newText)
  {
    var p := Prefix(oldText, newText);
    var room := if |oldText| <= |newText| then |oldText| - p else |newText| - p;
    BackMost(oldText, newText, p, kept, if kept <= room then kept else room);
  }

  // ---- UTF-16 offsets ----------------------------------------------------

  datatype OffsetError = SplitsSurrogatePair | BeyondText | TooLarge

  function Utf16Len(c: char): (n: nat)
    ensures 1 <= n <= 2
  {
    if c < '\U{10000}' then 1 else 2
  }

  function Units(s: string): (n: nat) {
    if s == "" then 0 else Units(s[..|s| - 1]) + Utf16Len(s[|s| - 1])
  }

  lemma {:induction false} UnitsAscend(s: string, i: nat, j: nat)
    requires i < j <= |s|
    ensures Units(s[..i]) < Units(s[..j])
  {
    assert s[..j][..j - 1] == s[..j - 1];
    if i < j - 1 { UnitsAscend(s, i, j - 1); }
  }

  lemma UnitsNext(s: string, k: nat)
    requires k < |s|
    ensures Units(s[..k + 1]) == Units(s[..k]) + Utf16Len(s[k]) <= Units(s)
  {
    assert s[..k + 1][..k] == s[..k] && s[..|s|] == s;
    if k + 1 < |s| { UnitsAscend(s, k + 1, |s|); }
  }

  /** `offset` is where the scalar at `p` begins, or the end of the text. */
  ghost predicate Begins(value: string, p: nat, offset: nat) {
    p <= |value| && Units(value[..p]) == offset
  }

  method Utf16ToScalar(value: string, offset: nat) returns (r: Result<nat, OffsetError>)
    requires offset < U32
    ensures r != Err(TooLarge) && (r.Ok? ==> r.value <= |value|)
    ensures Units(value) < U32 ==> forall p: nat :: r == Ok(p) <==> Begins(value, p, offset)
    ensures Units(value) < U32 ==> (r == Err(BeyondText) <==> offset > Units(value))
    ensures Units(value) < U32 ==>
              (r == Err(SplitsSurrogatePair) <==>
               exists p | 0 <= p < |value| :: Units(value[..p]) < offset < Units(value[..p + 1]))
  {
    assert value[..|value|] == value;
    var utf16: nat := 0;
    for scalar := 0 to |value|
      invariant Units(value) < U32 ==> utf16 == Units(value[..scalar]) <= offset
      invariant Units(value) < U32 ==> forall p | 0 <= p < scalar :: Units(value[..p]) < offset
    {
      if utf16 == offset {
        OnlyPosition(value, scalar, offset);
        return Ok(scalar);
      }
      UnitsNext(value, scalar);
      utf16 := (utf16 + Utf16Len(value[scalar])) % U32;
      if utf16 > offset {
        if Units(value) < U32 { Inside(value, scalar, offset); }
        return Err(SplitsSurrogatePair);
      }
    }
    if utf16 == offset {
      OnlyPosition(value, |value|, offset);
      r := Ok(|value|);
    } else {
      if Units(value) < U32 { Past(value, offset); }
      r := Err(BeyondText);
    }
  }

  lemma OnlyPosition(value: string, p: nat, offset: nat)
    ensures Begins(value, p, offset) ==> forall q: nat | Begins(value, q, offset) :: q == p
    ensures Begins(value, p, offset) ==>
              !exists q | 0 <= q < |value| :: Units(value[..q]) < offset < Units(value[..q + 1])
    ensures Begins(value, p, offset) ==> offset <= Units(value)
  {
    assert value[..|value|] == value;
    if Begins(value, p, offset) {
      forall q: nat | Begins(value, q, offset) ensures q == p {
        if q < p { UnitsAscend(value, q, p); } else if p < q { UnitsAscend(value, p, q); }
      }
      forall q | 0 <= q < |value| ensures !(Units(value[..q]) < offset < Units(value[..q + 1])) {
        if p < q { UnitsAscend(value, p, q); } else if q + 1 < p { UnitsAscend(value, q + 1, p); }
      }
      if p < |value| { UnitsAscend(value, p, |value|); }
    }
  }

  lemma Inside(value: string, k: nat, offset: nat)
    requires k < |value| && Units(value[..k]) < offset < Units(value[..k + 1])
    ensures forall p: nat :: !Begins(value, p, offset)
    ensures offset <= Units(value)
  {
    assert value[..|value|] == value;
    if k + 1 < |value| { UnitsAscend(value, k + 1, |value|); }
    forall p: nat ensures !Begins(value, p, offset) {
      if p <= |value| {
        if p < k { UnitsAscend(value, p, k); } else if k + 1 < p { UnitsAscend(value, k + 1, p); }
      }
    }
  }

  lemma Past(value: string, offset: nat)
    requires Units(value) < offset
    ensures forall p: nat :: !Begins(value, p, offset)
    ensures !exists q | 0 <= q < |value| :: Units(value[..q]) < offset < Units(value[..q + 1])
  {
    assert value[..|value|] == value;
    forall p | 0 <= p <= |value| ensures Units(value[..p]) < offset {
      if p < |value| { UnitsAscend(value, p, |value|); }
    }
  }

  function ScalarToUtf16(value: string, position: nat): (r: Result<nat, OffsetError>) {
    if position > |value| then Err(BeyondText)
    else Fold(value[..position])
  }

  /** `try_fold` with `checked_add`. */
  function Fold(s: string): (r: Result<nat, OffsetError>) {
    if s == "" then Ok(0)
    else
      var total := Fold(s[..|s| - 1]);
      if total.Err? then total
      else if total.value + Utf16Len(s[|s| - 1]) < U32 then Ok(total.value + Utf16Len(s[|s| - 1]))
      else Err(TooLarge)
  }

  lemma {:induction false} FoldIsUnits(s: string)
    ensures Fold(s) == if Units(s) < U32 then Ok(Units(s)) else Err(TooLarge)
  {
    if s != "" { FoldIsUnits(s[..|s| - 1]); }
  }

  // ---- What the units are ------------------------------------------------

  /** The encoding of one scalar value: section 2.1 of RFC 2781. */
  function Utf16Char(c: char): (u: seq<nat>) {
    var v := c as nat;
    if v < 0x1_0000 then [v] else [0xD800 + (v - 0x1_0000) / 0x400, 0xDC00 + (v - 0x1_0000) % 0x400]
  }

  function Utf16(s: string): (u: seq<nat>) {
    if s == "" then [] else Utf16(s[..|s| - 1]) + Utf16Char(s[|s| - 1])
  }

  /** The second unit of a surrogate pair. */
  predicate IsLow(unit: nat) {
    0xDC00 <= unit < 0xE000
  }

  lemma Utf16CharReads(c: char)
    ensures var u, v := Utf16Char(c), c as nat;
            && |u| == Utf16Len(c) && !IsLow(u[0])
            && (|u| == 1 ==> u[0] == v)
            && (|u| == 2 ==> 0xD800 <= u[0] < 0xDC00 && IsLow(u[1])
                             && v == 0x1_0000 + (u[0] - 0xD800) * 0x400 + (u[1] - 0xDC00))
  {
  }

  lemma {:induction false} UnitsCount(s: string)
    ensures Units(s) == |Utf16(s)|
  {
    if s != "" {
      UnitsCount(s[..|s| - 1]);
      Utf16CharReads(s[|s| - 1]);
    }
  }

  lemma {:induction false} Utf16Prefix(s: string, p: nat)
    requires p <= |s|
    ensures |Utf16(s[..p])| <= |Utf16(s)| && Utf16(s)[..|Utf16(s[..p])|] == Utf16(s[..p])
    decreases |s|
  {
    if p == |s| {
      assert s[..p] == s;
    } else {
      var front := s[..|s| - 1];
      Utf16Prefix(front, p);
      assert front[..p] == s[..p];
      assert Utf16(s) == Utf16(front) + Utf16Char(s[|s| - 1]);
    }
  }

  /** Where the scalar at `p` begins, the units before are its predecessors'. */
  lemma BeginsMeans(value: string, p: nat, offset: nat)
    ensures Begins(value, p, offset) <==>
            p <= |value| && offset <= |Utf16(value)| && Utf16(value)[..offset] == Utf16(value[..p])
  {
    if p <= |value| {
      UnitsCount(value[..p]);
      Utf16Prefix(value, p);
    }
  }

  /** Every unit is of one scalar. */
  lemma {:induction false} UnitOf(value: string, offset: nat) returns (p: nat)
    requires offset < |Utf16(value)|
    ensures p < |value| && Units(value[..p]) <= offset < Units(value[..p + 1])
    ensures offset - Units(value[..p]) < |Utf16Char(value[p])|
    ensures Utf16(value)[offset] == Utf16Char(value[p])[offset - Units(value[..p])]
    decreases |value|
  {
    var n := |value| - 1;
    var front := value[..n];
    UnitsCount(front);
    UnitsCount(value);
    assert value[..|value|] == value;
    if offset < |Utf16(front)| {
      p := UnitOf(front, offset);
      assert front[..p] == value[..p] && front[..p + 1] == value[..p + 1];
    } else {
      p := n;
    }
  }

  /** An offset splits a pair exactly where the unit there is the second of one. */
  lemma SplitsMeans(value: string, offset: nat)
    ensures (exists p | 0 <= p < |value| :: Units(value[..p]) < offset < Units(value[..p + 1]))
       <==> offset < |Utf16(value)| && IsLow(Utf16(value)[offset])
  {
    UnitsCount(value);
    if p :| 0 <= p < |value| && Units(value[..p]) < offset < Units(value[..p + 1]) {
      UnitsNext(value, p);
      var q := UnitOf(value, offset);
      OnePlace(value, p, q, offset);
      Utf16CharReads(value[p]);
    } else if offset < |Utf16(value)| {
      var p := UnitOf(value, offset);
      Utf16CharReads(value[p]);
    }
  }

  lemma OnePlace(value: string, p: nat, q: nat, offset: nat)
    requires p < |value| && q < |value|
    requires Units(value[..p]) <= offset < Units(value[..p + 1]) && Units(value[..q]) <= offset < Units(value[..q + 1])
    ensures p == q
  {
    if p + 1 < q { UnitsAscend(value, p + 1, q); }
    if q + 1 < p { UnitsAscend(value, q + 1, p); }
  }

  /** The second conversion fails exactly past the end of the text, or where an offset would
    * not fit its 32 bits. */
  lemma ScalarFailsExactlyWhen(value: string, position: nat)
    ensures ScalarToUtf16(value, position) == Err(BeyondText) <==> position > |value|
    ensures ScalarToUtf16(value, position) == Err(TooLarge) <==> position <= |value| && Units(value[..position]) >= U32
  {
    if position <= |value| { FoldIsUnits(value[..position]); }
  }

  /** The two conversions are inverse to each other on scalar boundaries. */
  lemma OffsetsInverse(value: string, position: nat, offset: nat)
    requires Units(value) < U32
    ensures ScalarToUtf16(value, position) == Ok(offset) <==> Begins(value, position, offset)
  {
    assert value[..|value|] == value;
    if position <= |value| {
      FoldIsUnits(value[..position]);
      if position < |value| { UnitsAscend(value, position, |value|); }
    }
  }

  method OffsetsRoundTrip(value: string, offset: nat) returns (position: Result<nat, OffsetError>)
    requires offset < U32 && Units(value) < U32
    ensures forall p: nat :: position == Ok(p) <==> ScalarToUtf16(value, p) == Ok(offset)
  {
    position := Utf16ToScalar(value, offset);
    forall p: nat ensures position == Ok(p) <==> ScalarToUtf16(value, p) == Ok(offset) {
      OffsetsInverse(value, p, offset);
    }
  }
}
