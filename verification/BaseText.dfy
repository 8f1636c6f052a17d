/** Texts over an alphabet of 2^w symbols, and what it is for one to spell a byte
  * string: the relation both unpadded codecs are proved against. */
module BaseText {
  import opened Wrappers
  import opened Words
  import opened BitStrings

  /** The value of the symbol `c`: the first place the alphabet has it. */
  function Position(alphabet: seq<byte>, c: byte): (p: Option<nat>)
    ensures p.Some? ==> p.value < |alphabet|
  {
    PositionFrom(alphabet, c, 0)
  }

  function PositionFrom(alphabet: seq<byte>, c: byte, i: nat): (p: Option<nat>)
    requires i <= |alphabet|
    ensures p.Some? ==> p.value < |alphabet|
    decreases |alphabet| - i, c, alphabet
  {
    if i == |alphabet| then None
    else if alphabet[i] == c then Some(i)
    else PositionFrom(alphabet, c, i + 1)
  }

  lemma {:induction false} FoundAt(alphabet: seq<byte>, c: byte, i: nat)
    requires i <= |alphabet| && PositionFrom(alphabet, c, i).Some?
    ensures alphabet[PositionFrom(alphabet, c, i).value] == c
    decreases |alphabet| - i
  {
    if alphabet[i] != c { FoundAt(alphabet, c, i + 1); }
  }

  /** From place `i` on, no symbol repeats an earlier one. */
  ghost predicate DistinctFrom(alphabet: seq<byte>, i: nat)
    requires i <= |alphabet|
    decreases |alphabet| - i, alphabet
  {
    i == |alphabet| || (Position(alphabet, alphabet[i]) == Some(i) && DistinctFrom(alphabet, i + 1))
  }

  lemma {:induction false} DistinctAt(alphabet: seq<byte>, i: nat, v: nat)
    requires i <= v < |alphabet| && DistinctFrom(alphabet, i)
    ensures Position(alphabet, alphabet[v]) == Some(v)
    decreases v - i
  {
    if i < v { DistinctAt(alphabet, i + 1, v); }
  }

  ghost predicate IsAlphabet(alphabet: seq<byte>, w: nat) {
    |alphabet| == Shl(1, w) <= 256 && DistinctFrom(alphabet, 0)
  }

  lemma {:induction false} DistinctIsAlphabet(alphabet: seq<byte>, i: nat)
    requires i <= |alphabet|
    requires forall i, j | 0 <= i < j < |alphabet| :: alphabet[i] != alphabet[j]
    ensures DistinctFrom(alphabet, i)
    decreases |alphabet| - i
  {
    if i < |alphabet| {
      FindsFrom(alphabet, 0, i);
      DistinctIsAlphabet(alphabet, i + 1);
    }
  }

  lemma {:induction false} FindsFrom(alphabet: seq<byte>, i: nat, v: nat)
    requires i <= v < |alphabet| && forall j | i <= j < v :: alphabet[j] != alphabet[v]
    ensures PositionFrom(alphabet, alphabet[v], i) == Some(v)
    decreases v - i
  {
    if i < v { FindsFrom(alphabet, i + 1, v); }
  }

  ghost predicate IsSymbols(alphabet: seq<byte>, text: seq<byte>) {
    text == [] || (IsSymbols(alphabet, text[..|text| - 1]) && Position(alphabet, text[|text| - 1]).Some?)
  }

  ghost function Values(alphabet: seq<byte>, text: seq<byte>): (v: seq<byte>)
    requires |alphabet| <= 256 && IsSymbols(alphabet, text)
    ensures |v| == |text|
  {
    if text == [] then []
    else Values(alphabet, text[..|text| - 1]) + [Position(alphabet, text[|text| - 1]).value as byte]
  }

  /** `text` spells `bytes`: their bits, most significant first, `w` to a symbol,
    * with fewer than `w` bits after the last of them, all zero. */
  ghost predicate Spells(alphabet: seq<byte>, w: nat, text: seq<byte>, bytes: seq<byte>) {
    && |alphabet| <= 256 && IsSymbols(alphabet, text)
    && 0 <= |text| * w - |bytes| * 8 < w
    && Flat(Values(alphabet, text), w) == Push(Flat(bytes, 8), 0, |text| * w - |bytes| * 8)
  }

  lemma {:induction false} OneForeignSymbol(alphabet: seq<byte>, text: seq<byte>, i: nat)
    requires i < |text| && Position(alphabet, text[i]).None?
    ensures !IsSymbols(alphabet, text)
  {
    if i < |text| - 1 { OneForeignSymbol(alphabet, text[..|text| - 1], i); }
  }

  lemma ValuesSnoc(alphabet: seq<byte>, w: nat, text: seq<byte>, v: byte)
    requires IsAlphabet(alphabet, w) && IsSymbols(alphabet, text) && v as nat < |alphabet|
    ensures IsSymbols(alphabet, text + [alphabet[v]])
    ensures Values(alphabet, text + [alphabet[v]]) == Values(alphabet, text) + [v]
  {
    assert (text + [alphabet[v]])[..|text|] == text;
    DistinctAt(alphabet, 0, v as nat);
  }

  lemma {:induction false} ValuesName(alphabet: seq<byte>, text: seq<byte>)
    requires |alphabet| <= 256 && IsSymbols(alphabet, text)
    ensures var v := Values(alphabet, text);
            forall i | 0 <= i < |text| :: v[i] as nat < |alphabet| && alphabet[v[i]] == text[i]
  {
    if text != [] {
      ValuesName(alphabet, text[..|text| - 1]);
      FoundAt(alphabet, text[|text| - 1], 0);
    }
  }

  lemma OneLength(m: nat, n: nat, w: nat, bits: nat)
    requires 0 <= m * w - bits < w && 0 <= n * w - bits < w
    ensures m == n
  {
    if m < n { ScaleStrictly(m, n, w); } else if n < m { ScaleStrictly(n, m, w); }
  }

  /** Each byte string has one spelling. */
  lemma {:induction false} SpellsOneText(alphabet: seq<byte>, w: nat, s: seq<byte>, t: seq<byte>, bytes: seq<byte>)
    requires IsAlphabet(alphabet, w) && Spells(alphabet, w, s, bytes) && Spells(alphabet, w, t, bytes)
    ensures s == t
  {
    OneLength(|s|, |t|, w, 8 * |bytes|);
    ValuesName(alphabet, s);
    ValuesName(alphabet, t);
    assert Flat(Values(alphabet, s), w) == Flat(Values(alphabet, t), w);
    FlatInjective(Values(alphabet, s), Values(alphabet, t), w);
  }

  /** Each text spells at most one byte string. */
  lemma SpellsOneByteString(alphabet: seq<byte>, w: nat, text: seq<byte>, a: seq<byte>, b: seq<byte>)
    requires w <= 8 && Spells(alphabet, w, text, a) && Spells(alphabet, w, text, b)
    ensures a == b
  {
    assert |a| == |b|;
    MaskedZero(Flat(a, 8), Flat(b, 8), 0, |text| * w - |a| * 8);
    Octet(8);
    FlatInjective(a, b, 8);
  }

  // ---- One accumulator between bytes and symbols --------------------------

  /** `read` has been read and `text` written; `acc` holds the `held` bits between
    * them. A byte is `o` bits and a symbol `w`. */
  ghost predicate Encoding(alphabet: seq<byte>, w: nat, o: nat, read: seq<byte>, text: seq<byte>, acc: nat, held: nat) {
    && IsAlphabet(alphabet, w) && IsSymbols(alphabet, text)
    && Holds(Flat(read, o), Flat(Values(alphabet, text), w), acc, held)
  }

  lemma EncodeByte(alphabet: seq<byte>, w: nat, o: nat, bytes: seq<byte>, i: nat, text: seq<byte>, acc: nat, held: nat)
    requires i < |bytes| && held + o <= 32 && o == 8
    requires Encoding(alphabet, w, o, bytes[..i], text, acc, held)
    ensures Encoding(alphabet, w, o, bytes[..i + 1], text, Shl(acc, o) % U32 + bytes[i] as nat, held + o)
  {
    Octet(o);
    ReadDigit(bytes[..i], Flat(Values(alphabet, text), w), acc, held, bytes[i], o);
    assert bytes[..i] + [bytes[i]] == bytes[..i + 1];
  }

  lemma EncodeSymbol(alphabet: seq<byte>, w: nat, o: nat, read: seq<byte>, text: seq<byte>, acc: nat, held: nat)
    requires Encoding(alphabet, w, o, read, text, acc, held + w) && |alphabet| > 0
    ensures Encoding(alphabet, w, o, read, text + [alphabet[Shr(acc, held) % |alphabet|]], acc, held)
  {
    var v := (Shr(acc, held) % |alphabet|) as byte;
    WriteDigit(Flat(read, o), Values(alphabet, text), acc, held, w, |alphabet|);
    ValuesSnoc(alphabet, w, text, v);
  }

  lemma OneMoreSymbol(symbols: nat, w: nat, bits: nat, held: nat, pad: nat)
    requires symbols * w + held == bits && held + pad == w
    ensures (symbols + 1) * w - bits == pad
  {
  }

  lemma EncodePad(alphabet: seq<byte>, w: nat, o: nat, read: seq<byte>, text: seq<byte>, acc: nat, held: nat, pad: nat)
    requires Encoding(alphabet, w, o, read, text, acc, held) && |alphabet| > 0 && held + pad == w <= 32 && o == 8
    requires |text| * w + held == |read| * 8 && held > 0
    ensures Spells(alphabet, w, text + [alphabet[Shl(acc, pad) % U32 % |alphabet|]], read)
  {
    var v := (Shl(acc, pad) % U32 % |alphabet|) as byte;
    WritePadded(Flat(read, o), Values(alphabet, text), acc, held, pad, w, |alphabet|);
    ValuesSnoc(alphabet, w, text, v);
    OneMoreSymbol(|text|, w, |read| * 8, held, pad);
  }

  lemma EncodeEven(alphabet: seq<byte>, w: nat, o: nat, read: seq<byte>, text: seq<byte>, acc: nat)
    requires Encoding(alphabet, w, o, read, text, acc, 0) && o == 8 && w > 0 && |text| * w == |read| * 8
    ensures Spells(alphabet, w, text, read)
  {
  }

  /** The same, from symbols to bytes. */
  ghost predicate Decoding(alphabet: seq<byte>, w: nat, o: nat, read: seq<byte>, out: seq<byte>, acc: nat, held: nat) {
    && IsAlphabet(alphabet, w) && IsSymbols(alphabet, read)
    && Holds(Flat(Values(alphabet, read), w), Flat(out, o), acc, held)
  }

  lemma DecodeSymbol(alphabet: seq<byte>, w: nat, o: nat, text: seq<byte>, i: nat, out: seq<byte>, acc: nat, held: nat)
    requires i < |text| && held + w <= 32 && Position(alphabet, text[i]).Some?
    requires Decoding(alphabet, w, o, text[..i], out, acc, held)
    ensures Decoding(alphabet, w, o, text[..i + 1], out, Shl(acc, w) % U32 + Position(alphabet, text[i]).value, held + w)
  {
    var v := Position(alphabet, text[i]).value as byte;
    FoundAt(alphabet, text[i], 0);
    ReadDigit(Values(alphabet, text[..i]), Flat(out, o), acc, held, v, w);
    ValuesSnoc(alphabet, w, text[..i], v);
    assert text[..i] + [text[i]] == text[..i + 1];
  }

  lemma DecodeByte(alphabet: seq<byte>, w: nat, o: nat, read: seq<byte>, out: seq<byte>, acc: nat, held: nat)
    requires Decoding(alphabet, w, o, read, out, acc, held + o) && o == 8
    ensures Decoding(alphabet, w, o, read, out + [(Shr(acc, held) % 256) as byte], acc, held)
  {
    Octet(o);
    WriteDigit(Flat(Values(alphabet, read), w), out, acc, held, o, 256);
  }

  /** The characters of an ASCII literal, as bytes. */
  function Ascii(s: string): (b: seq<byte>)
    requires forall i | 0 <= i < |s| :: s[i] < '\U{80}'
    ensures |b| == |s| && forall i | 0 <= i < |s| :: b[i] as nat == s[i] as nat
  {
    seq(|s|, i requires 0 <= i < |s| => s[i] as byte)
  }
}
