/** Shifts, masks and the strings of bits they act on. The codecs are specified on
  * the bit strings, most significant bit first. */
module BitStrings {
  import opened Words

  newtype byte = x: int | 0 <= x < 256

  datatype BitString = Empty | Snoc(front: BitString, last: bool)

  /** `v << n`, in a word wide enough to lose nothing. */
  function Shl(v: nat, n: nat): (r: nat)
    decreases n, v
  {
    if n == 0 then v else 2 * Shl(v, n - 1)
  }

  /** `v >> n`. */
  function Shr(v: nat, n: nat): (r: nat)
    decreases n, v
  {
    if n == 0 then v else Shr(v / 2, n - 1)
  }

  /** `v & ((1 << n) - 1)`: also what a word n bits wide keeps of v. */
  function Mask(v: nat, n: nat): (r: nat)
    ensures r < Shl(1, n)
    decreases n, v
  {
    if n == 0 then 0 else 2 * Mask(v / 2, n - 1) + v % 2
  }

  /** `s`, then the low `n` bits of `v`. */
  function Push(s: BitString, v: nat, n: nat): (r: BitString)
    decreases n, v, s
  {
    if n == 0 then s else Snoc(Push(s, v / 2, n - 1), v % 2 == 1)
  }

  /** The bits of `digits`, `w` to a digit. */
  ghost function Flat(digits: seq<byte>, w: nat): BitString {
    if digits == [] then Empty
    else Push(Flat(digits[..|digits| - 1], w), digits[|digits| - 1] as nat, w)
  }

  // ---- Shifting, masking and pushing -------------------------------------

  /** Shifting and masking divide a number by 2^n and put it back together. */
  lemma {:induction false} Divide(v: nat, n: nat)
    ensures v == Shl(Shr(v, n), n) + Mask(v, n)
  {
    if n > 0 { Divide(v / 2, n - 1); }
  }

  /** Pushing n bits more and then `low` below them is pushing both at once. */
  lemma {:induction false} PushJoined(s: BitString, v: nat, w: nat, low: nat, n: nat)
    requires low < Shl(1, n)
    ensures Push(s, Shl(v, n) + low, w + n) == Push(Push(s, v, w), low, n)
  {
    if n > 0 {
      var u := Shl(v, n - 1) + low / 2;
      assert (Shl(v, n) + low) / 2 == u && (Shl(v, n) + low) % 2 == low % 2;
      PushJoined(s, v, w, low / 2, n - 1);
    }
  }

  /** Shifting right drops the low bits. */
  lemma {:induction false} PushSplit(s: BitString, v: nat, w: nat, n: nat)
    ensures Push(s, v, w + n) == Push(Push(s, Shr(v, n), w), v, n)
  {
    if n > 0 { PushSplit(s, v / 2, w, n - 1); }
  }

  /** A mask keeps the low bits. */
  lemma {:induction false} PushMasked(s: BitString, v: nat, m: nat, n: nat)
    requires n <= m
    ensures Push(s, Mask(v, m), n) == Push(s, v, n)
  {
    if n > 0 { PushMasked(s, v / 2, m - 1, n - 1); }
  }

  lemma {:induction false} PushInjective(s: BitString, v: nat, t: BitString, u: nat, n: nat)
    requires v < Shl(1, n) && u < Shl(1, n) && Push(s, v, n) == Push(t, u, n)
    ensures s == t && v == u
  {
    if n > 0 { PushInjective(s, v / 2, t, u / 2, n - 1); }
  }

  /** What a mask leaves is zero exactly when zeros are what was pushed. */
  lemma MaskedZero(s: BitString, t: BitString, v: nat, n: nat)
    ensures Push(s, v, n) == Push(t, 0, n) <==> s == t && Mask(v, n) == 0
  {
    Positive(n);
    PushMasked(s, v, n, n);
    if Push(s, v, n) == Push(t, 0, n) { PushInjective(s, Mask(v, n), t, 0, n); }
  }

  lemma {:induction false} MaskShifted(v: nat, m: nat, n: nat)
    ensures Mask(Shl(v, n), m + n) == Shl(Mask(v, m), n)
  {
    if n > 0 { MaskShifted(v, m, n - 1); }
  }

  lemma {:induction false} WordBound(v: nat, low: nat, m: nat, n: nat)
    requires v < Shl(1, m) && low < Shl(1, n)
    ensures Shl(v, n) + low < Shl(1, m + n)
  {
    if n > 0 { WordBound(v, low / 2, m, n - 1); }
  }

  lemma {:induction false} Positive(n: nat)
    ensures Shl(1, n) > 0
  {
    if n > 0 { Positive(n - 1); }
  }

  // ---- Masks are remainders ----------------------------------------------

  lemma {:induction false} ShlScales(v: nat, n: nat)
    ensures Shl(v, n) == v * Shl(1, n)
  {
    if n > 0 { ShlScales(v, n - 1); }
  }

  lemma ScaleStrictly(x: int, y: int, p: nat)
    requires x < y
    ensures x * p + p <= y * p
  {
    var k := y - x - 1;
    assert y * p == (x + 1 + k) * p == x * p + p + k * p;
  }

  lemma RemainderIs(v: nat, p: nat, k: nat, r: nat)
    requires r < p && v == k * p + r
    ensures v % p == r
  {
    var q := v / p;
    assert v == q * p + v % p;
    if q < k { ScaleStrictly(q, k, p); } else if k < q { ScaleStrictly(k, q, p); }
  }

  /** Masking with n ones is the remainder by 2^n. */
  lemma MaskIsRemainder(v: nat, n: nat, p: nat)
    requires p == Shl(1, n)
    ensures p > 0 && Mask(v, n) == v % p
  {
    Divide(v, n);
    ShlScales(Shr(v, n), n);
    RemainderIs(v, p, Shr(v, n), Mask(v, n));
  }

  lemma Nibble(n: nat)
    ensures Shl(1, n + 4) == 16 * Shl(1, n)
  {
    assert Shl(1, n + 2) == 4 * Shl(1, n);
    assert Shl(1, n + 4) == 4 * Shl(1, n + 2);
  }

  lemma Octet(n: nat)
    requires n == 8
    ensures Shl(1, n) == 256
  {
    Nibble(n - 8);
    Nibble(n - 4);
  }

  lemma Word(n: nat)
    requires n == 32
    ensures Shl(1, n) == U32
  {
    Octet(n - 24);
    Nibble(n - 24);
    Nibble(n - 20);
    Nibble(n - 16);
    Nibble(n - 12);
    Nibble(n - 8);
    Nibble(n - 4);
  }

  // ---- A u32 accumulator between two strings of digits --------------------

  /** `all` has been read; `done` has been written, and the low `n` bits of `acc`
    * have not. Whatever `acc` holds above them is never looked at. */
  ghost predicate Holds(all: BitString, done: BitString, acc: nat, n: nat) {
    all == Push(done, acc, n)
  }

  /** Shifting left in a word of m + n bits and filling in below. */
  lemma ShiftIn(s: BitString, acc: nat, held: nat, m: nat, low: nat, n: nat, word: nat)
    requires held <= m && low < Shl(1, n) && word == Shl(1, m + n)
    ensures word > 0 && Shl(acc, n) % word + low < word
    ensures Push(s, Shl(acc, n) % word + low, held + n) == Push(Push(s, acc, held), low, n)
  {
    MaskIsRemainder(Shl(acc, n), m + n, word);
    MaskShifted(acc, m, n);
    PushJoined(s, Mask(acc, m), held, low, n);
    PushMasked(s, acc, m, held);
    WordBound(Mask(acc, m), low, m, n);
  }

  /** `acc = (acc << w) | d` in a u32: the bits that fall off the top are above any
    * that are still to be written. */
  lemma {:induction false} ReadDigit(read: seq<byte>, done: BitString, acc: nat, held: nat, d: byte, w: nat)
    requires Holds(Flat(read, w), done, acc, held) && held + w <= 32 && d as nat < Shl(1, w)
    ensures Holds(Flat(read + [d], w), done, Shl(acc, w) % U32 + d as nat, held + w)
    ensures Shl(acc, w) % U32 + d as nat < U32
  {
    Word(32 - w + w);
    ShiftIn(done, acc, held, 32 - w, d as nat, w, U32);
    assert (read + [d])[..|read|] == read;
  }

  /** `(acc >> held) & ((1 << w) - 1)` takes the top w of the bits held. */
  lemma WriteDigit(all: BitString, out: seq<byte>, acc: nat, held: nat, w: nat, p: nat)
    requires Holds(all, Flat(out, w), acc, held + w) && p == Shl(1, w) <= 256
    ensures p > 0 && Holds(all, Flat(out + [(Shr(acc, held) % p) as byte], w), acc, held)
  {
    MaskIsRemainder(Shr(acc, held), w, p);
    var d := (Shr(acc, held) % p) as byte;
    PushSplit(Flat(out, w), acc, w, held);
    PushMasked(Flat(out, w), Shr(acc, held), w, w);
    assert (out + [d])[..|out|] == out;
  }

  /** Fewer than w bits are left: they go out high, with zeros below them. */
  lemma WritePadded(all: BitString, out: seq<byte>, acc: nat, held: nat, pad: nat, w: nat, p: nat)
    requires Holds(all, Flat(out, w), acc, held) && held + pad == w <= 32 && p == Shl(1, w) <= 256
    ensures p > 0 && Flat(out + [(Shl(acc, pad) % U32 % p) as byte], w) == Push(all, 0, pad)
  {
    var word := Shl(acc, pad) % U32;
    Word(32 - pad + pad);
    Positive(pad);
    ShiftIn(Flat(out, w), acc, held, 32 - pad, 0, pad, U32);
    MaskIsRemainder(word, w, p);
    PushMasked(Flat(out, w), word, w, w);
    var d := (word % p) as byte;
    assert (out + [d])[..|out|] == out;
  }

  lemma {:induction false} FlatInjective(a: seq<byte>, b: seq<byte>, w: nat)
    requires |a| == |b| && Flat(a, w) == Flat(b, w)
    requires forall i | 0 <= i < |a| :: a[i] as nat < Shl(1, w) && b[i] as nat < Shl(1, w)
    ensures a == b
  {
    if a != [] {
      var n := |a| - 1;
      PushInjective(Flat(a[..n], w), a[n] as nat, Flat(b[..n], w), b[n] as nat, w);
      FlatInjective(a[..n], b[..n], w);
      assert a == a[..n] + [a[n]] && b == b[..n] + [b[n]];
    }
  }
}
