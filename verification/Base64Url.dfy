/** Unpadded base64url, section 5 of RFC 4648, as visor/src/contacts_ui.rs writes it:
  * three bytes at a time, absent ones read as zero, absent symbols left out. */
module Base64Url {
  import opened BitStrings
  import opened BaseText

  const UPPER: seq<byte> := Ascii("ABCDEFGHIJKLMNOPQRSTUVWXYZ")
  const LOWER: seq<byte> := Ascii("abcdefghijklmnopqrstuvwxyz")
  const OTHER: seq<byte> := Ascii("0123456789-_")
  const TABLE: seq<byte> := UPPER + LOWER + OTHER

  lemma Runs()
    ensures |UPPER| == 26 && forall i | 0 <= i < 26 :: UPPER[i] as int == 65 + i
    ensures |LOWER| == 26 && forall i | 0 <= i < 26 :: LOWER[i] as int == 97 + i
    ensures |OTHER| == 12 && forall i | 0 <= i < 10 :: OTHER[i] as int == 48 + i
    ensures OTHER[10] == 45 && OTHER[11] == 95
  {
  }

  lemma TableDistinct()
    ensures |TABLE| == 64 && forall i, j | 0 <= i < j < 64 :: TABLE[i] != TABLE[j]
  {
    Runs();
    assert forall i | 0 <= i < 26 :: TABLE[i] == UPPER[i];
    assert forall i | 26 <= i < 52 :: TABLE[i] == LOWER[i - 26];
    assert forall i | 52 <= i < 64 :: TABLE[i] == OTHER[i - 52];
  }

  /** Table 2 of RFC 4648. */
  lemma TableInOrder(v: nat)
    requires v < 64
    ensures |TABLE| == 64
    ensures TABLE[v] as int == if v < 26 then 0x41 + v else if v < 52 then 0x61 + (v - 26)
                               else if v < 62 then 0x30 + (v - 52) else if v == 62 then 0x2d else 0x5f
  {
    Runs();
    if v < 26 {
      assert TABLE[v] == UPPER[v];
    } else if v < 52 {
      assert TABLE[v] == LOWER[v - 26];
    } else {
      assert TABLE[v] == OTHER[v - 52];
    }
  }

  lemma TableIsAlphabet()
    ensures IsAlphabet(TABLE, 6)
  {
    assert Shl(1, 3) == 8;
    assert Shl(1, 6) == 64;
    TableDistinct();
    DistinctIsAlphabet(TABLE, 0);
  }

  /** The word of a chunk: its bytes, high, over `missing` zero bytes. */
  lemma ChunkWord(s: BitString, b0: byte, b1: byte, b2: byte, o: nat)
    requires o == 8
    ensures Push(Push(Push(s, b0 as nat, o), b1 as nat, o), b2 as nat, o)
         == Push(s, b0 as nat * 0x1_0000 + b1 as nat * 0x100 + b2 as nat, 3 * o)
  {
    Octet(o);
    var v := b0 as nat * 0x100 + b1 as nat;
    ShlScales(b0 as nat, o);
    ShlScales(v, o);
    PushJoined(s, b0 as nat, o, b1 as nat, o);
    PushJoined(s, v, 2 * o, b2 as nat, o);
  }

  /** Once the symbols that hold the bytes are out, only zeros are left. */
  lemma OnlyZerosLeft(s: BitString, done: BitString, word: nat, pad: nat, left: nat)
    requires Holds(Push(s, 0, pad + left), done, word, left) && Mask(word, left) == 0
    ensures done == Push(s, 0, pad)
  {
    Positive(left);
    assert Shl(0, left) == 0 by { ShlScales(0, left); }
    PushJoined(s, 0, pad, 0, left);
    MaskedZero(done, Push(s, 0, pad), word, left);
    PushMasked(done, word, left, left);
    PushInjective(done, 0, Push(s, 0, pad), 0, left);
  }

  /** `output.push(TABLE[((value >> held) & 63)])`. */
  method PushSymbol(table: seq<byte>, ghost w: nat, ghost all: BitString, text: seq<byte>, value: nat, held: nat)
    returns (next: seq<byte>)
    requires IsAlphabet(table, w) && w == 6 && |table| == 64 && IsSymbols(table, text)
    requires Holds(all, Flat(Values(table, text), w), value, held + w)
    ensures IsSymbols(table, next) && |next| == |text| + 1
    ensures Holds(all, Flat(Values(table, next), w), value, held)
  {
    WriteDigit(all, Values(table, text), value, held, w, 64);
    ValuesSnoc(table, w, text, (Shr(value, held) % 64) as byte);
    next := text + [table[Shr(value, held) % 64]];
  }

  method Base64Url(bytes: seq<byte>) returns (output: seq<byte>)
    ensures Spells(TABLE, 6, output, bytes)
    ensures |output| == (4 * |bytes| + 2) / 3
    ensures forall i | 0 <= i < |output| :: output[i] in TABLE
  {
    TableIsAlphabet();
    output := Base64UrlIn(TABLE, bytes);
    ValuesName(TABLE, output);
  }

  /** The output so far is the symbols of the whole chunks, or all of it. */
  ghost predicate Printed(table: seq<byte>, w: nat, o: nat, read: seq<byte>, text: seq<byte>, pad: nat) {
    && w == 6 && o == 8 && |table| == 64 && IsSymbols(table, text) && 6 * |text| == 8 * |read| + pad
    && Flat(Values(table, text), w) == Push(Flat(read, o), 0, pad)
  }

  /** The symbols that hold a chunk's `size` bytes: one more of them than bytes. */
  method PushSymbols(table: seq<byte>, ghost w: nat, ghost all: BitString, text: seq<byte>, value: nat, size: nat)
    returns (next: seq<byte>)
    requires IsAlphabet(table, w) && w == 6 && |table| == 64 && IsSymbols(table, text) && 1 <= size <= 3
    requires Holds(all, Flat(Values(table, text), w), value, 24)
    ensures IsSymbols(table, next) && |next| == |text| + size + 1
    ensures Holds(all, Flat(Values(table, next), w), value, 6 * (3 - size))
  {
    next := PushSymbol(table, w, all, text, value, 18);
    next := PushSymbol(table, w, all, next, value, 12);
    if size > 1 {
      next := PushSymbol(table, w, all, next, value, 6);
    }
    if size > 2 {
      next := PushSymbol(table, w, all, next, value, 0);
    }
  }

  /** One pass of the loop, over the chunk from `i` to `next`. */
  method PrintChunk(table: seq<byte>, ghost w: nat, ghost o: nat, bytes: seq<byte>, i: nat, next: nat, output: seq<byte>)
    returns (printed: seq<byte>)
    requires i < |bytes| && next == if i + 3 <= |bytes| then i + 3 else |bytes|
    requires IsAlphabet(table, w) && Printed(table, w, o, bytes[..i], output, 0)
    ensures Printed(table, w, o, bytes[..next], printed, 2 * (3 - (next - i)))
  {
    var b0 := bytes[i];
    var b1 := if i + 1 < |bytes| then bytes[i + 1] else 0;
    var b2 := if i + 2 < |bytes| then bytes[i + 2] else 0;
    var value := b0 as nat * 0x1_0000 + b1 as nat * 0x100 + b2 as nat;
    ghost var all := Push(Flat(bytes[..next], o), 0, 8 * (3 - (next - i)));
    ChunkReady(bytes, i, next, o, b0, b1, b2, 24);
    printed := PushSymbols(table, w, all, output, value, next - i);
    ChunkDone(table, w, o, bytes[..next], printed, value, next - i, 6 * (3 - (next - i)));
  }

  lemma ChunkReady(bytes: seq<byte>, i: nat, next: nat, o: nat, b0: byte, b1: byte, b2: byte, held: nat)
    requires i < |bytes| && o == 8 && held == 24 && next == if i + 3 <= |bytes| then i + 3 else |bytes|
    requires b0 == bytes[i] && b1 == (if i + 1 < |bytes| then bytes[i + 1] else 0)
    requires b2 == if i + 2 < |bytes| then bytes[i + 2] else 0
    ensures Holds(Push(Flat(bytes[..next], o), 0, 8 * (3 - (next - i))), Flat(bytes[..i], o),
                  b0 as nat * 0x1_0000 + b1 as nat * 0x100 + b2 as nat, held)
  {
    ChunkWord(Flat(bytes[..i], o), b0, b1, b2, o);
    ChunkBits(bytes, i, next, o, Push(Push(Push(Flat(bytes[..i], o), b0 as nat, o), b1 as nat, o), b2 as nat, o));
  }

  lemma ChunkDone(table: seq<byte>, w: nat, o: nat, read: seq<byte>, text: seq<byte>, value: nat, size: nat, left: nat)
    requires 1 <= size <= 3 && left == 6 * (3 - size) && |table| == 64 && IsSymbols(table, text)
    requires (size == 1 ==> value % 0x1_0000 == 0) && (size == 2 ==> value % 0x100 == 0)
    requires Holds(Push(Flat(read, o), 0, 8 * (3 - size)), Flat(Values(table, text), w), value, left)
    ensures Flat(Values(table, text), w) == Push(Flat(read, o), 0, 2 * (3 - size))
  {
    if size == 1 { LowTwelve(value, left); } else if size == 2 { LowSix(value, left); }
    OnlyZerosLeft(Flat(read, o), Flat(Values(table, text), w), value, 2 * (3 - size), left);
  }

  method Base64UrlIn(table: seq<byte>, bytes: seq<byte>) returns (output: seq<byte>)
    requires IsAlphabet(table, 6) && |table| == 64
    ensures Spells(table, 6, output, bytes)
  {
    ghost var w: nat, o: nat := 6, 8;
    output := [];
    var i := 0;
    ghost var pad: nat := 0;
    while i < |bytes|
      invariant 0 <= i <= |bytes| && pad < 6 && (i < |bytes| ==> pad == 0)
      invariant Printed(table, w, o, bytes[..i], output, pad)
    {
      var next := if i + 3 <= |bytes| then i + 3 else |bytes|;
      output := PrintChunk(table, w, o, bytes, i, next, output);
      pad := 2 * (3 - (next - i));
      i := next;
    }
    assert bytes[..|bytes|] == bytes;
  }

  lemma LowTwelve(value: nat, n: nat)
    requires n == 12 && value % 0x1_0000 == 0
    ensures Mask(value, n) == 0
  {
    TwelveBits(n);
    assert value % 4096 == 0;
    MaskIsRemainder(value, n, 4096);
  }

  lemma LowSix(value: nat, n: nat)
    requires n == 6 && value % 0x100 == 0
    ensures Mask(value, n) == 0
  {
    SixBits(n);
    assert value % 64 == 0;
    MaskIsRemainder(value, n, 64);
  }

  lemma SixBits(n: nat)
    requires n == 6
    ensures Shl(1, n) == 64
  {
    Nibble(n - 4);
    assert Shl(1, n - 4) == 4;
  }

  lemma TwelveBits(n: nat)
    requires n == 12
    ensures Shl(1, n) == 4096
  {
    Octet(n - 4);
    Nibble(n - 4);
  }

  /** A chunk's three bytes are the bytes there are, then zeros. */
  lemma ChunkBits(bytes: seq<byte>, i: nat, next: nat, o: nat, all: BitString)
    requires i < |bytes| && o == 8 && next == if i + 3 <= |bytes| then i + 3 else |bytes|
    requires all == Push(Push(Push(Flat(bytes[..i], o), bytes[i] as nat, o),
                              if i + 1 < |bytes| then bytes[i + 1] as nat else 0, o),
                         if i + 2 < |bytes| then bytes[i + 2] as nat else 0, o)
    ensures all == Push(Flat(bytes[..next], o), 0, 8 * (3 - (next - i)))
  {
    assert bytes[..i + 1][..i] == bytes[..i];
    if i + 1 < |bytes| { assert bytes[..i + 2][..i + 1] == bytes[..i + 1]; }
    if i + 2 < |bytes| { assert bytes[..i + 3][..i + 2] == bytes[..i + 2]; }
    Positive(o);
    assert Shl(0, o) == 0 by { ShlScales(0, o); }
    PushJoined(Flat(bytes[..i + 1], o), 0, o, 0, o);
  }

  /** Different byte strings never print alike. */
  lemma Injective(text: seq<byte>, a: seq<byte>, b: seq<byte>)
    requires Spells(TABLE, 6, text, a) && Spells(TABLE, 6, text, b)
    ensures a == b
  {
    SpellsOneByteString(TABLE, 6, text, a, b);
  }
}
