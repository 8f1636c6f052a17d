/** z-base-32, the spelling of an endpoint id: runtime/component/src/z32.rs.
  *
  * Both directions push symbols through one u32 accumulator that is shifted left
  * and never masked, so its high bits fall off. */
module Z32 {
  import opened Wrappers
  import opened Words
  import opened BitStrings
  import opened BaseText

  datatype DecodeError = ForeignSymbol(symbol: byte) | NotWholeBytes

  const ALPHABET: seq<byte> := Ascii("ybndrfg8ejkmcpqxot1uwisza345h769")

  lemma AlphabetIsAlphabet()
    ensures IsAlphabet(ALPHABET, 5)
  {
    assert Shl(1, 3) == 8;
    assert Shl(1, 5) == 32;
    AlphabetDistinct();
    DistinctIsAlphabet(ALPHABET, 0);
  }

  lemma AlphabetDistinct()
    ensures |ALPHABET| == 32 && forall i, j | 0 <= i < j < 32 :: ALPHABET[i] != ALPHABET[j]
  {
  }

  /** Digit by digit: zero is `y` and 31 is `9`. */
  lemma AlphabetInOrder()
    ensures ALPHABET == [0x79, 0x62, 0x6e, 0x64, 0x72, 0x66, 0x67, 0x38,
                         0x65, 0x6a, 0x6b, 0x6d, 0x63, 0x70, 0x71, 0x78,
                         0x6f, 0x74, 0x31, 0x75, 0x77, 0x69, 0x73, 0x7a,
                         0x61, 0x33, 0x34, 0x35, 0x68, 0x37, 0x36, 0x39]
  {
    var codes: seq<byte> := [0x79, 0x62, 0x6e, 0x64, 0x72, 0x66, 0x67, 0x38,
                             0x65, 0x6a, 0x6b, 0x6d, 0x63, 0x70, 0x71, 0x78,
                             0x6f, 0x74, 0x31, 0x75, 0x77, 0x69, 0x73, 0x7a,
                             0x61, 0x33, 0x34, 0x35, 0x68, 0x37, 0x36, 0x39];
    assert |ALPHABET| == |codes|;
    forall i | 0 <= i < 32 ensures ALPHABET[i] == codes[i] {
    }
  }

  /** Of small letters and figures it leaves out `l`, `v`, `0` and `2`, and has nothing else. */
  lemma ForeignSymbols(c: byte)
    ensures c in ALPHABET <==> (0x61 <= c <= 0x7a || 0x30 <= c <= 0x39) && c !in {0x6c, 0x76, 0x30, 0x32}
  {
    AlphabetInOrder();
  }

  /** The top five bits of a byte are its first symbol, and the other three, high over two
    * zeros, its second. */
  lemma OneByte(b: byte)
    ensures |ALPHABET| == 32
    ensures Spells(ALPHABET, 5, [ALPHABET[b / 8], ALPHABET[b % 8 * 4]], [b])
  {
    AlphabetIsAlphabet();
    AlphabetDistinct();
    var high, low := b / 8, b % 8 * 4;
    var first := [ALPHABET[high]];
    var text := first + [ALPHABET[low]];
    ValuesSnoc(ALPHABET, 5, [], high);
    assert [] + [ALPHABET[high]] == first && [] + [high] == [high];
    ValuesSnoc(ALPHABET, 5, first, low);
    assert text == [ALPHABET[high], ALPHABET[low]];
    assert Values(ALPHABET, text) == [high, low];
    TwoDigits(b, high, low, 5, 8, 2);
  }

  lemma Doubled(n: nat)
    requires n > 0
    ensures Shl(1, n) == 2 * Shl(1, n - 1)
  {
  }

  lemma FiveAndThree(b: byte, high: byte, low: byte)
    requires high == b / 8 && low == b % 8 * 4
    ensures high as nat * 32 + low as nat == b as nat * 4
  {
    assert b == 8 * (b / 8) + b % 8;
  }

  lemma OneDigit(d: byte, w: nat)
    ensures Flat([d], w) == Push(Empty, d as nat, w)
  {
    assert [d][..0] == [];
    assert Flat([], w) == Empty;
  }

  lemma TwoDigits(b: byte, high: byte, low: byte, w: nat, o: nat, pad: nat)
    requires w == 5 && o == 8 && pad == 2 && high == b / 8 && low == b % 8 * 4
    ensures Flat([high, low], w) == Push(Flat([b], o), 0, pad)
  {
    OneDigit(high, w);
    OneDigit(b, o);
    assert [high, low][..1] == [high];
    assert Flat([high, low], w) == Push(Flat([high], w), low as nat, w);
    Nibble(w - 4);
    Doubled(w - 4);
    Doubled(pad);
    Doubled(pad - 1);
    PushJoined(Empty, high as nat, w, low as nat, w);
    Positive(pad);
    PushJoined(Empty, b as nat, o, 0, pad);
    ShlScales(high as nat, w);
    ShlScales(b as nat, pad);
    FiveAndThree(b, high, low);
  }

  method Encode(bytes: seq<byte>) returns (text: seq<byte>)
    ensures Spells(ALPHABET, 5, text, bytes)
  {
    AlphabetIsAlphabet();
    text := EncodeIn(ALPHABET, bytes);
  }

  /** The inner loop: whole symbols go out while there are bits for them. */
  method PushSymbols(alphabet: seq<byte>, w: nat, ghost o: nat, ghost read: seq<byte>, before: seq<byte>,
                     acc: nat, held: nat)
    returns (text: seq<byte>, bits: nat)
    requires w == 5 && held <= 12 && Encoding(alphabet, w, o, read, before, acc, held) && |alphabet| > 0
    ensures bits < 5 && 5 * |text| + bits == 5 * |before| + held
    ensures Encoding(alphabet, w, o, read, text, acc, bits)
  {
    text, bits := before, held;
    while bits >= w
      invariant bits <= 12 && 5 * |text| + bits == 5 * |before| + held
      invariant Encoding(alphabet, w, o, read, text, acc, bits)
    {
      bits := bits - w;
      EncodeSymbol(alphabet, w, o, read, text, acc, bits);
      text := text + [alphabet[Shr(acc, bits) % |alphabet|]];
    }
  }

  method EncodeIn(alphabet: seq<byte>, bytes: seq<byte>) returns (text: seq<byte>)
    requires IsAlphabet(alphabet, 5)
    ensures Spells(alphabet, 5, text, bytes)
  {
    var symbolBits: nat, byteBits: nat := 5, 8;
    text := [];
    var acc: nat, bits: nat := 0, 0;
    for i := 0 to |bytes|
      invariant bits < 5 && 5 * |text| + bits == 8 * i
      invariant Encoding(alphabet, symbolBits, byteBits, bytes[..i], text, acc, bits)
    {
      EncodeByte(alphabet, symbolBits, byteBits, bytes, i, text, acc, bits);
      acc := Shl(acc, byteBits) % U32 + bytes[i] as nat;
      bits := bits + byteBits;
      text, bits := PushSymbols(alphabet, symbolBits, byteBits, bytes[..i + 1], text, acc, bits);
    }
    assert bytes[..|bytes|] == bytes;
    if bits > 0 {
      EncodePad(alphabet, symbolBits, byteBits, bytes, text, acc, bits, symbolBits - bits);
      text := text + [alphabet[Shl(acc, symbolBits - bits) % U32 % |alphabet|]];
    } else {
      EncodeEven(alphabet, symbolBits, byteBits, bytes, text, acc);
    }
  }

  // ---- Decoding ----------------------------------------------------------

  lemma SamePad(symbols: nat, a: nat, b: nat, bits: nat)
    requires 5 * symbols == 8 * a + bits && bits < 8 && 0 <= 5 * symbols - 8 * b < 5
    ensures a == b && bits == 5 * symbols - 8 * b
  {
  }

  lemma NoSpelling(alphabet: seq<byte>, text: seq<byte>, out: seq<byte>, acc: nat, bits: nat, bytes: seq<byte>)
    requires Decoding(alphabet, 5, 8, text, out, acc, bits)
    requires bits < 8 && 5 * |text| == 8 * |out| + bits && (bits >= 5 || Mask(acc, bits) != 0)
    ensures !Spells(alphabet, 5, text, bytes)
  {
    if Spells(alphabet, 5, text, bytes) {
      SamePad(|text|, |out|, |bytes|, bits);
      MaskedZero(Flat(out, 8), Flat(bytes, 8), acc, bits);
    }
  }

  lemma OneSpelling(alphabet: seq<byte>, text: seq<byte>, out: seq<byte>, acc: nat, bits: nat, bytes: seq<byte>)
    requires Decoding(alphabet, 5, 8, text, out, acc, bits)
    requires 5 * |text| == 8 * |out| + bits && bits < 5 && Mask(acc, bits) == 0
    ensures Spells(alphabet, 5, text, bytes) <==> bytes == out
  {
    MaskedZero(Flat(out, 8), Flat(out, 8), acc, bits);
    assert Spells(alphabet, 5, text, out);
    if Spells(alphabet, 5, text, bytes) { SpellsOneByteString(alphabet, 5, text, bytes, out); }
  }

  /** `Ok` exactly of the bytes the text spells; a symbol outside the alphabet is
    * reported before anything else, and it is the first one. */
  ghost predicate DecodesTo(alphabet: seq<byte>, text: seq<byte>, r: Result<seq<byte>, DecodeError>) {
    && (forall bytes :: r == Ok(bytes) <==> Spells(alphabet, 5, text, bytes))
    && (IsSymbols(alphabet, text) ==> r.Ok? || r == Err(NotWholeBytes))
    && (!IsSymbols(alphabet, text) ==>
          exists i | 0 <= i < |text| ::
            IsSymbols(alphabet, text[..i]) && Position(alphabet, text[i]).None? && r == Err(ForeignSymbol(text[i])))
  }

  method Decode(text: seq<byte>) returns (r: Result<seq<byte>, DecodeError>)
    ensures DecodesTo(ALPHABET, text, r)
  {
    AlphabetIsAlphabet();
    r := DecodeIn(ALPHABET, text);
  }

  method DecodeIn(alphabet: seq<byte>, text: seq<byte>) returns (r: Result<seq<byte>, DecodeError>)
    requires IsAlphabet(alphabet, 5)
    ensures DecodesTo(alphabet, text, r)
  {
    var symbolBits: nat, byteBits: nat := 5, 8;
    var acc: nat, bits: nat, out := 0, 0, [];
    for i := 0 to |text|
      invariant bits < 8 && 5 * i == 8 * |out| + bits
      invariant Decoding(alphabet, symbolBits, byteBits, text[..i], out, acc, bits)
    {
      var value := Position(alphabet, text[i]);
      if value.None? {
        OneForeignSymbol(alphabet, text, i);
        return Err(ForeignSymbol(text[i]));
      }
      DecodeSymbol(alphabet, symbolBits, byteBits, text, i, out, acc, bits);
      acc := Shl(acc, symbolBits) % U32 + value.value;
      bits := bits + symbolBits;
      if bits >= byteBits {
        bits := bits - byteBits;
        DecodeByte(alphabet, symbolBits, byteBits, text[..i + 1], out, acc, bits);
        out := out + [(Shr(acc, bits) % 256) as byte];
      }
    }
    assert text[..|text|] == text;
    if bits >= symbolBits || Mask(acc, bits) != 0 {
      forall bytes ensures !Spells(alphabet, 5, text, bytes) {
        NoSpelling(alphabet, text, out, acc, bits, bytes);
      }
      return Err(NotWholeBytes);
    }
    forall bytes ensures Spells(alphabet, 5, text, bytes) <==> bytes == out {
      OneSpelling(alphabet, text, out, acc, bits, bytes);
    }
    return Ok(out);
  }

  /** Decoding is exactly the inverse of encoding, over every text and every byte
    * string: no other text decodes to `bytes`, and every length or padding that
    * encoding cannot produce is refused. */
  method EncodeAndDecode(text: seq<byte>, bytes: seq<byte>)
    returns (encoded: seq<byte>, decoded: Result<seq<byte>, DecodeError>)
    ensures decoded == Ok(bytes) <==> encoded == text
  {
    encoded := Encode(bytes);
    decoded := Decode(text);
    if decoded == Ok(bytes) {
      AlphabetIsAlphabet();
      SpellsOneText(ALPHABET, 5, encoded, text, bytes);
    }
  }
}
