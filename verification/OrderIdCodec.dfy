/** The two identities of an order: the 28-byte Binance id ("pg" and 26 symbols of unpadded
    Base32, RFC 4648 section 6, padding omitted as in section 3.2) and the 34-byte durable id
    ("pg" and 32 lower-case hex digits). Strings are byte sequences. */
module OrderIdCodec {
  import opened Common

  type byte = x: int | 0 <= x < 256

  type IntentBytes = b: seq<byte> | |b| == 16 witness seq(16, _ => 0)

  type Digit32 = x: int | 0 <= x < 32

  const PREFIX: seq<byte> := [112, 103]

  // ---------------------------------------------------------------- the alphabet

  function Symbol(d: Digit32): byte {
    if d < 26 then 65 + d else 50 + (d - 26)
  }

  function DigitOf(symbol: byte): Option<Digit32> {
    if 65 <= symbol <= 90 then Some(symbol - 65)
    else if 50 <= symbol <= 55 then Some(symbol - 50 + 26)
    else None
  }

  lemma SymbolsAreInverse(d: Digit32, s: byte)
    ensures DigitOf(Symbol(d)) == Some(d)
    ensures DigitOf(s) == Some(d) <==> s == Symbol(d)
  {
  }

  function Symbols(digits: seq<Digit32>): seq<byte> {
    if digits == [] then [] else Symbols(digits[..|digits| - 1]) + [Symbol(digits[|digits| - 1])]
  }

  function DigitsOf(symbols: seq<byte>): Option<seq<Digit32>> {
    if symbols == [] then Some([])
    else
      var front, last := DigitsOf(symbols[..|symbols| - 1]), DigitOf(symbols[|symbols| - 1]);
      if front.None? || last.None? then None else Some(front.value + [last.value])
  }

  // ---------------------------------------------------------------- positional values

  function Value32(digits: seq<Digit32>): nat {
    if digits == [] then 0 else Value32(digits[..|digits| - 1]) * 32 + digits[|digits| - 1]
  }

  function Value256(bytes: seq<byte>): nat {
    if bytes == [] then 0 else Value256(bytes[..|bytes| - 1]) * 256 + bytes[|bytes| - 1]
  }

  function Digits32(n: nat, count: nat): (d: seq<Digit32>)
    ensures |d| == count
  {
    if count == 0 then [] else Digits32(n / 32, count - 1) + [n % 32]
  }

  function Digits256(n: nat, count: nat): (d: seq<byte>)
    ensures |d| == count
  {
    if count == 0 then [] else Digits256(n / 256, count - 1) + [n % 256]
  }

  function Power32(k: nat): nat {
    if k == 0 then 1 else 32 * Power32(k - 1)
  }

  function Power256(k: nat): nat {
    if k == 0 then 1 else 256 * Power256(k - 1)
  }

  lemma {:induction false} Digits32OfValue(digits: seq<Digit32>)
    ensures Digits32(Value32(digits), |digits|) == digits
    ensures Value32(digits) < Power32(|digits|)
  {
    if digits != [] {
      Digits32OfValue(digits[..|digits| - 1]);
    }
  }

  lemma {:induction false} Value32OfDigits(n: nat, count: nat)
    requires n < Power32(count)
    ensures Value32(Digits32(n, count)) == n
  {
    if count > 0 {
      Value32OfDigits(n / 32, count - 1);
      assert Digits32(n, count)[..count - 1] == Digits32(n / 32, count - 1);
    }
  }

  lemma {:induction false} Digits256OfValue(bytes: seq<byte>)
    ensures Digits256(Value256(bytes), |bytes|) == bytes
    ensures Value256(bytes) < Power256(|bytes|)
  {
    if bytes != [] {
      Digits256OfValue(bytes[..|bytes| - 1]);
    }
  }

  lemma {:induction false} Value256OfDigits(n: nat, count: nat)
    requires n < Power256(count)
    ensures Value256(Digits256(n, count)) == n
  {
    if count > 0 {
      Value256OfDigits(n / 256, count - 1);
      assert Digits256(n, count)[..count - 1] == Digits256(n / 256, count - 1);
    }
  }

  /** Five bytes are eight symbols. */
  lemma {:induction false} FiveBytesAreEightSymbols(k: nat)
    ensures Power256(5 * k) == Power32(8 * k)
  {
    if k > 0 {
      FiveBytesAreEightSymbols(k - 1);
      var b, s := 5 * (k - 1), 8 * (k - 1);
      assert Power256(b + 2) == 65536 * Power256(b);
      assert Power256(b + 4) == 65536 * Power256(b + 2);
      assert Power32(s + 2) == 1024 * Power32(s);
      assert Power32(s + 4) == 1024 * Power32(s + 2);
      assert Power32(s + 6) == 1024 * Power32(s + 4);
    }
  }

  /** 128 bits and two zero pad bits fill 26 symbols exactly. */
  lemma PadBits()
    ensures 4 * Power256(16) == Power32(26)
  {
    FiveBytesAreEightSymbols(3);
    assert Power32(26) == 1024 * Power32(24);
  }

  // ---------------------------------------------------------------- the Binance id

  /** The canonical id: the 128-bit value shifted by the two pad bits, in 26 base-32 digits
      (the 16 bytes and ten more). */
  function Encoding(bytes: IntentBytes): seq<byte> {
    PREFIX + Symbols(Digits32(4 * Value256(bytes), |bytes| + 10))
  }

  /** The bytes of a well-formed id whose two pad bits are zero. */
  function Decoding(id: seq<byte>): Option<IntentBytes> {
    if |id| != 28 || id[..2] != PREFIX then None
    else
      match DigitsOf(id[2..])
      case None => None
      case Some(digits) =>
        if Value32(digits) % 4 != 0 then None else Some(Digits256(Value32(digits) / 4, |id| - 12))
  }

  // ---------------------------------------------------------------- shifts and masks, bit by bit

  /** `x << k`. */
  function Shl(x: nat, k: nat): nat {
    if k == 0 then x else 2 * Shl(x, k - 1)
  }

  /** `x >> k`. */
  function Shr(x: nat, k: nat): nat {
    if k == 0 then x else Shr(x / 2, k - 1)
  }

  /** `x & ((1 << k) - 1)`. */
  function Mask(x: nat, k: nat): nat {
    if k == 0 then 0 else x % 2 + 2 * Mask(x / 2, k - 1)
  }

  lemma {:induction false} ShlAdds(a: nat, b: nat, k: nat)
    ensures Shl(a + b, k) == Shl(a, k) + Shl(b, k)
  {
    if k > 0 { ShlAdds(a, b, k - 1); }
  }

  lemma {:induction false} ShlTwice(x: nat, j: nat, k: nat)
    ensures Shl(x, j + k) == Shl(Shl(x, j), k)
  {
    if k > 0 { ShlTwice(x, j, k - 1); }
  }

  lemma ShlConstants(x: nat)
    ensures Shl(x, 3) == 8 * x && Shl(x, 5) == 32 * x && Shl(x, 8) == 256 * x
  {
    assert Shl(x, 1) == 2 * x;
    assert Shl(x, 2) == 2 * Shl(x, 1);
    assert Shl(x, 4) == 4 * Shl(x, 2);
    assert Shl(x, 6) == 4 * Shl(x, 4);
  }

  lemma {:induction false} MaskBound(x: nat, k: nat)
    ensures Mask(x, k) < Shl(1, k)
    ensures Mask(Mask(x, k), k) == Mask(x, k)
  {
    if k > 0 { MaskBound(x / 2, k - 1); }
  }

  lemma {:induction false} ShlMonotone(k: nat, n: nat)
    requires k <= n
    ensures Shl(1, k) <= Shl(1, n)
  {
    if k < n { ShlMonotone(k, n - 1); }
  }

  /** Twelve bits never reach 4096. */
  lemma TwelveBits(x: nat, k: nat)
    requires k <= 12
    ensures Mask(x, k) < 4096
  {
    MaskBound(x, k);
    ShlMonotone(k, 12);
    ShlTwice(1, 8, 4);
    ShlConstants(1);
    assert Shl(256, 4) == 4 * Shl(256, 2) && Shl(256, 2) == 1024;
  }

  /** Appending `n` low bits `c` to `x`. */
  lemma {:induction false} MaskAppend(x: nat, c: nat, k: nat, n: nat)
    requires c < Shl(1, n)
    ensures Mask(Shl(x, n) + c, k + n) == Shl(Mask(x, k), n) + c
  {
    if n > 0 {
      MaskAppend(x, c / 2, k, n - 1);
      assert (Shl(x, n) + c) / 2 == Shl(x, n - 1) + c / 2;
      assert (Shl(x, n) + c) % 2 == c % 2;
    }
  }

  /** The low `k + n` bits are the next `n` bits above the low `k`. */
  lemma {:induction false} MaskTakes(x: nat, k: nat, n: nat)
    ensures Mask(x, k + n) == Shl(Mask(Shr(x, k), n), k) + Mask(x, k)
  {
    if k > 0 { MaskTakes(x / 2, k - 1, n); }
  }

  /** Emitting the top five of `bits` buffered bits moves them into the output value. */
  lemma EmitFive(v: nat, buffer: nat, bits: nat)
    requires 5 <= bits
    ensures Shl(v * 32 + Mask(Shr(buffer, bits - 5), 5), bits - 5) + Mask(buffer, bits - 5)
         == Shl(v, bits) + Mask(buffer, bits)
  {
    var k := bits - 5;
    var d := Mask(Shr(buffer, k), 5);
    MaskTakes(buffer, k, 5);
    ShlConstants(v);
    ShlTwice(v, 5, k);
    ShlAdds(32 * v, d, k);
  }

  lemma ShiftInByte(v: nat, buffer: nat, bits: nat, byte: nat)
    requires bits < 5 && byte < 256 && Mask(buffer, bits) == buffer
    ensures var full := Shl(buffer, 8) + byte;
            Mask(full, bits + 8) == full < 4096 && Shl(v, bits + 8) + full == (Shl(v, bits) + buffer) * 256 + byte
  {
    ShlConstants(1);
    ShlConstants(buffer);
    ShlConstants(Shl(v, bits));
    MaskAppend(buffer, byte, bits, 8);
    TwelveBits(Shl(buffer, 8) + byte, bits + 8);
    ShlTwice(v, bits, 8);
  }

  /** Emitting the top eight of `bits` buffered bits moves them into the output value. */
  lemma EmitEight(v: nat, buffer: nat, bits: nat)
    requires 8 <= bits && Mask(buffer, bits) == buffer
    ensures Shl(v * 256 + Mask(Shr(buffer, bits - 8), 8), bits - 8) + Mask(buffer, bits - 8) == Shl(v, bits) + buffer
  {
    var k := bits - 8;
    var d := Mask(Shr(buffer, k), 8);
    MaskTakes(buffer, k, 8);
    ShlConstants(v);
    ShlTwice(v, 8, k);
    ShlAdds(256 * v, d, k);
  }

  lemma ShiftInDigit(v: nat, buffer: nat, bits: nat, digit: nat)
    requires bits < 8 && digit < 32 && Mask(buffer, bits) == buffer
    ensures var full := Shl(buffer, 5) + digit;
            Mask(full, bits + 5) == full && Shl(v, bits + 5) + full == (Shl(v, bits) + buffer) * 32 + digit
  {
    ShlConstants(1);
    MaskAppend(buffer, digit, bits, 5);
    ShlTwice(v, bits, 5);
    ShlAdds(Shl(v, bits), buffer, 5);
    ShlConstants(Shl(v, bits) + buffer);
  }

  /** The last three bits and two zero pad bits make the final digit. */
  lemma PadDigit(v: nat, buffer: nat)
    requires Mask(buffer, 3) == buffer
    ensures v * 32 + Mask(Shl(buffer, 2), 5) == 4 * (Shl(v, 3) + buffer)
  {
    ShlConstants(v);
    MaskBound(buffer, 3);
    ShlConstants(1);
    MaskAppend(buffer, 0, 3, 2);
    assert Shl(buffer, 2) == 4 * buffer;
  }

  lemma AppendDigit(digits: seq<Digit32>, digit: Digit32)
    ensures Value32(digits + [digit]) == Value32(digits) * 32 + digit
    ensures Symbols(digits + [digit]) == Symbols(digits) + [Symbol(digit)]
  {
    assert (digits + [digit])[..|digits|] == digits;
  }

  /** The inner loop's step: the top five of `bits` buffered bits become a digit. */
  lemma EmitDigit(digits: seq<Digit32>, digit: Digit32, buffer: nat, bits: nat, total: nat)
    requires 5 <= bits && digit == Mask(Shr(buffer, bits - 5), 5)
    requires Shl(Value32(digits), bits) + Mask(buffer, bits) == total
    ensures Shl(Value32(digits + [digit]), bits - 5) + Mask(buffer, bits - 5) == total
    ensures Symbols(digits + [digit]) == Symbols(digits) + [Symbol(digit)]
  {
    EmitFive(Value32(digits), buffer, bits);
    AppendDigit(digits, digit);
  }

  /** The outer loop's step: a byte is shifted in below the buffered bits. */
  lemma TakeByte(digits: seq<Digit32>, buffer: nat, bits: nat, head: seq<byte>, b: byte)
    requires bits < 5 && Mask(buffer, bits) == buffer
    requires Shl(Value32(digits), bits) + buffer == Value256(head)
    ensures var full := Shl(buffer, 8) + b;
            full < 4096 && Shl(Value32(digits), bits + 8) + Mask(full, bits + 8) == Value256(head + [b])
  {
    ShiftInByte(Value32(digits), buffer, bits, b);
    AppendByte(head, b);
  }

  lemma AppendByte(bytes: seq<byte>, b: byte)
    ensures Value256(bytes + [b]) == Value256(bytes) * 256 + b
  {
    assert (bytes + [b])[..|bytes|] == bytes;
  }

  lemma EncodingIs(bytes: IntentBytes, digits: seq<Digit32>)
    requires |digits| == 26 && Value32(digits) == 4 * Value256(bytes)
    ensures Encoding(bytes) == PREFIX + Symbols(digits)
  {
    Digits32OfValue(digits);
  }

  lemma LastDigit(bytes: IntentBytes, digits: seq<Digit32>, digit: Digit32, buffer: nat)
    requires |digits| == 25 && Mask(buffer, 3) == buffer && digit == Mask(Shl(buffer, 2), 5)
    requires Shl(Value32(digits), 3) + buffer == Value256(bytes)
    ensures Encoding(bytes) == PREFIX + Symbols(digits) + [Symbol(digit)]
  {
    PadDigit(Value32(digits), buffer);
    AppendDigit(digits, digit);
    EncodingIs(bytes, digits + [digit]);
    assert PREFIX + (Symbols(digits) + [Symbol(digit)]) == PREFIX + Symbols(digits) + [Symbol(digit)];
  }

  /** The five bits above the lowest `k`: what `(buffer >> k) & 31` selects. */
  lemma FiveBits(x: nat)
    ensures Mask(x, 5) < 32
  {
    MaskBound(x, 5);
    ShlConstants(1);
  }

  method EncodeIntentBytes(bytes: IntentBytes) returns (out: seq<byte>)
    ensures out == Encoding(bytes)
  {
    out := PREFIX;
    var buffer: u32 := 0;
    var bits := 0;
    ghost var digits: seq<Digit32>, head: seq<byte> := [], [];
    for i := 0 to |bytes|
      invariant 0 <= bits < 5 && 5 * |digits| + bits == 8 * i
      invariant Mask(buffer, bits) == buffer && head == bytes[..i]
      invariant Shl(Value32(digits), bits) + buffer == Value256(head)
      invariant out == PREFIX + Symbols(digits)
    {
      TakeByte(digits, buffer, bits, head, bytes[i]);
      head := head + [bytes[i]];
      buffer := Shl(buffer, 8) + bytes[i];
      bits := bits + 8;
      out, digits, bits := EmitDigits(out, buffer, bits, digits, Value256(head));
      MaskBound(buffer, bits);
      TwelveBits(buffer, bits);
      buffer := Mask(buffer, bits);
    }
    assert head == bytes && bits == 3;
    if bits != 0 {
      FiveBits(Shl(buffer, 5 - bits));
      var digit: Digit32 := Mask(Shl(buffer, 5 - bits), 5);
      LastDigit(bytes, digits, digit, buffer);
      out := out + [Symbol(digit)];
    }
  }

  /** The inner loop of the encoder: symbols leave while five bits are buffered. */
  method EmitDigits(prefix: seq<byte>, buffer: u32, buffered: nat, ghost before: seq<Digit32>, ghost total: nat)
    returns (out: seq<byte>, ghost digits: seq<Digit32>, bits: nat)
    requires prefix == PREFIX + Symbols(before)
    requires Shl(Value32(before), buffered) + Mask(buffer, buffered) == total
    ensures bits < 5 && 5 * |digits| + bits == 5 * |before| + buffered
    ensures Shl(Value32(digits), bits) + Mask(buffer, bits) == total
    ensures out == PREFIX + Symbols(digits)
  {
    out, digits, bits := prefix, before, buffered;
    while bits >= 5
      invariant 0 <= bits && 5 * |digits| + bits == 5 * |before| + buffered
      invariant Shl(Value32(digits), bits) + Mask(buffer, bits) == total
      invariant out == PREFIX + Symbols(digits)
    {
      FiveBits(Shr(buffer, bits - 5));
      var digit: Digit32 := Mask(Shr(buffer, bits - 5), 5);
      EmitDigit(digits, digit, buffer, bits, total);
      bits := bits - 5;
      out := out + [Symbol(digit)];
      digits := digits + [digit];
    }
  }

  lemma DecodingIs(id: seq<byte>, digits: seq<Digit32>, bytes: IntentBytes, pad: nat)
    requires |id| == 28 && id[..2] == PREFIX && DigitsOf(id[2..]) == Some(digits)
    requires 4 * Value256(bytes) + pad == Value32(digits) && pad < 4
    ensures Decoding(id) == if pad == 0 then Some(bytes) else None
  {
    Digits256OfValue(bytes);
    QuotientBy4(Value32(digits), Value256(bytes), pad);
  }

  lemma QuotientBy4(n: nat, q: nat, r: nat)
    requires n == 4 * q + r && r < 4
    ensures n % 4 == r && n / 4 == q
  {
  }

  /** One input symbol is shifted in below the buffered bits. */
  lemma TakeDigit(v: nat, digits: seq<Digit32>, digit: Digit32, buffer: nat, bits: nat)
    requires bits < 8 && Mask(buffer, bits) == buffer
    requires Shl(v, bits) + buffer == Value32(digits)
    ensures var full := Shl(buffer, 5) + digit;
            full < 4096 && Mask(full, bits + 5) == full && Shl(v, bits + 5) + full == Value32(digits + [digit])
  {
    ShiftInDigit(v, buffer, bits, digit);
    TwelveBits(Shl(buffer, 5) + digit, bits + 5);
    AppendDigit(digits, digit);
  }

  /** The top eight of `bits` buffered bits become a byte. */
  lemma EmitByte(head: seq<byte>, b: byte, buffer: nat, bits: nat, total: nat)
    requires 8 <= bits && Mask(buffer, bits) == buffer && b == Mask(Shr(buffer, bits - 8), 8)
    requires Shl(Value256(head), bits) + buffer == total
    ensures Shl(Value256(head + [b]), bits - 8) + Mask(buffer, bits - 8) == total
  {
    EmitEight(Value256(head), buffer, bits);
    AppendByte(head, b);
  }

  lemma EightBits(x: nat)
    ensures Mask(x, 8) < 256
  {
    MaskBound(x, 8);
    ShlConstants(1);
  }

  /** The decoder's step: five bits in, and the top eight out once they have gathered. */
  method TakeSymbol(buffer: u32, bits: nat, digit: Digit32, ghost head: seq<byte>, ghost digits: seq<Digit32>)
    returns (emitted: Option<byte>, rest: u32, left: nat)
    requires bits < 8 && Mask(buffer, bits) == buffer
    requires Shl(Value256(head), bits) + buffer == Value32(digits)
    ensures emitted.Some? <==> bits >= 3
    ensures left == if bits >= 3 then bits - 3 else bits + 5
    ensures Mask(rest, left) == rest
    ensures Shl(Value256(if emitted.Some? then head + [emitted.value] else head), left) + rest
         == Value32(digits + [digit])
  {
    TakeDigit(Value256(head), digits, digit, buffer, bits);
    var full: u32 := Shl(buffer, 5) + digit;
    left := bits + 5;
    emitted := None;
    if left >= 8 {
      left := left - 8;
      EightBits(Shr(full, left));
      emitted := Some(Mask(Shr(full, left), 8));
      EmitByte(head, emitted.value, full, bits + 5, Value32(digits + [digit]));
    }
    MaskBound(full, left);
    TwelveBits(full, left);
    rest := Mask(full, left);
  }

  lemma NextDigit(encoded: seq<byte>, k: nat, digits: seq<Digit32>)
    requires k < |encoded| && DigitsOf(encoded[..k]) == Some(digits)
    ensures var digit := DigitOf(encoded[k]);
            DigitsOf(encoded[..k + 1]) == if digit.None? then None else Some(digits + [digit.value])
  {
    assert encoded[..k + 1][..k] == encoded[..k];
  }

  lemma StoreNext(bytes: seq<byte>, i: nat, b: byte)
    requires i < |bytes|
    ensures bytes[i := b][..i + 1] == bytes[..i] + [b]
  {
  }

  /** The symbol loop: gathers sixteen bytes and leaves the pad bits, or meets a foreign symbol. */
  method GatherBytes(encoded: seq<byte>) returns (ok: bool, bytes: seq<byte>, written: nat, pad: nat)
    requires |encoded| == 26
    ensures ok <==> DigitsOf(encoded).Some?
    ensures ok ==> |bytes| == written == 16 && Mask(pad, 2) == pad
    ensures ok ==> Shl(Value256(bytes), 2) + pad == Value32(DigitsOf(encoded).value)
  {
    ok, pad := false, 0;
    bytes, written := seq(16, _ => 0), 0;
    var buffer: u32 := 0;
    var bits := 0;
    ghost var digits: seq<Digit32>, head: seq<byte> := [], [];
    for k := 0 to |encoded|
      invariant !ok && |bytes| == 16 && 0 <= bits < 8 && 0 <= written <= 16 && 8 * written + bits == 5 * k
      invariant Mask(buffer, bits) == buffer && head == bytes[..written]
      invariant DigitsOf(encoded[..k]) == Some(digits)
      invariant Shl(Value256(head), bits) + buffer == Value32(digits)
    {
      NextDigit(encoded, k, digits);
      var digit := DigitOf(encoded[k]);
      if digit.None? {
        DigitsFail(encoded, k + 1);
        return;
      }
      var emitted;
      emitted, buffer, bits := TakeSymbol(buffer, bits, digit.value, head, digits);
      digits := digits + [digit.value];
      if emitted.Some? {
        if written == |bytes| {
          return;
        }
        StoreNext(bytes, written, emitted.value);
        bytes := bytes[written := emitted.value];
        head := head + [emitted.value];
        written := written + 1;
      }
    }
    assert encoded[..|encoded|] == encoded && head == bytes && bits == 2;
    ok, pad := true, buffer;
  }

  method DecodeIntentBytes(id: seq<byte>) returns (r: Option<IntentBytes>)
    ensures r == Decoding(id)
  {
    if |id| < 2 || id[..2] != PREFIX {
      return None;
    }
    var encoded := id[2..];
    if |encoded| != 26 {
      return None;
    }
    var ok, bytes, written, pad;
    ok, bytes, written, pad := GatherBytes(encoded);
    if !ok {
      return None;
    }
    AllDecoded(id, DigitsOf(encoded).value, bytes, pad);
    if written != |bytes| || pad != 0 {
      return None;
    }
    return Some(bytes);
  }

  /** After all 26 symbols two pad bits are left in the buffer. */
  lemma AllDecoded(id: seq<byte>, digits: seq<Digit32>, bytes: IntentBytes, buffer: nat)
    requires |id| == 28 && id[..2] == PREFIX && DigitsOf(id[2..]) == Some(digits)
    requires Mask(buffer, 2) == buffer && Shl(Value256(bytes), 2) + buffer == Value32(digits)
    ensures Decoding(id) == if buffer == 0 then Some(bytes) else None
  {
    LowBits(Value256(bytes), buffer);
    DecodingIs(id, digits, bytes, buffer);
  }

  lemma LowBits(v: nat, buffer: nat)
    requires Mask(buffer, 2) == buffer
    ensures Shl(v, 2) == 4 * v && buffer < 4
  {
    MaskBound(buffer, 2);
    assert Shl(1, 1) == 2 && Shl(v, 1) == 2 * v;
    assert Shl(v, 2) == 2 * Shl(v, 1) && Shl(1, 2) == 2 * Shl(1, 1);
  }

  lemma {:induction false} DigitsFail(symbols: seq<byte>, k: nat)
    requires k <= |symbols| && DigitsOf(symbols[..k]).None?
    ensures DigitsOf(symbols).None?
  {
    if k < |symbols| {
      var front := symbols[..|symbols| - 1];
      assert front[..k] == symbols[..k];
      DigitsFail(front, k);
    } else {
      assert symbols[..k] == symbols;
    }
  }

  lemma {:induction false} DigitsOfSymbols(digits: seq<Digit32>)
    ensures |Symbols(digits)| == |digits| && DigitsOf(Symbols(digits)) == Some(digits)
  {
    if digits != [] {
      DigitsOfSymbols(digits[..|digits| - 1]);
      SymbolsAreInverse(digits[|digits| - 1], 0);
      var symbols := Symbols(digits);
      assert symbols[..|symbols| - 1] == Symbols(digits[..|digits| - 1]);
      assert digits[..|digits| - 1] + [digits[|digits| - 1]] == digits;
    }
  }

  lemma {:induction false} SymbolsOfDigits(symbols: seq<byte>)
    requires DigitsOf(symbols).Some?
    ensures |DigitsOf(symbols).value| == |symbols| && Symbols(DigitsOf(symbols).value) == symbols
  {
    if symbols != [] {
      SymbolsOfDigits(symbols[..|symbols| - 1]);
      var digits := DigitsOf(symbols).value;
      assert digits[..|digits| - 1] == DigitsOf(symbols[..|symbols| - 1]).value;
    }
  }

  /** Round trip: every 128-bit identity survives encoding, in exactly 28 bytes. */
  lemma DecodingOfEncoding(bytes: IntentBytes)
    ensures |Encoding(bytes)| == 28
    ensures Decoding(Encoding(bytes)) == Some(bytes)
  {
    var n := 4 * Value256(bytes);
    var digits := Digits32(n, 26);
    Digits256OfValue(bytes);
    PadBits();
    Value32OfDigits(n, 26);
    DigitsOfSymbols(digits);
    assert Encoding(bytes)[2..] == Symbols(digits) && Encoding(bytes)[..2] == PREFIX;
    DecodingIs(Encoding(bytes), digits, bytes, 0);
  }

  /** Canonical form (RFC 4648 section 3.5): a decodable id is the encoding of what it
      decodes to, so two different ids never decode to the same identity. */
  lemma EncodingOfDecoding(id: seq<byte>)
    requires Decoding(id).Some?
    ensures Encoding(Decoding(id).value) == id
  {
    var digits := DigitsOf(id[2..]).value;
    var n := Value32(digits) / 4;
    SymbolsOfDigits(id[2..]);
    Digits32OfValue(digits);
    PadBits();
    Value256OfDigits(n, 16);
    EncodingIs(Digits256(n, 16), digits);
    assert id == PREFIX + id[2..];
  }

  // ---------------------------------------------------------------- the encoding bit by bit

  const BASE32_ALPHABET: string := "ABCDEFGHIJKLMNOPQRSTUVWXYZ234567"

  const HEX_ALPHABET: string := "0123456789abcdef"

  lemma SymbolsAreTheAlphabet(d: Digit32)
    ensures Spells(Symbol(d), d)
  {
  }

  predicate Spells(symbol: byte, d: Digit32) {
    symbol as char == BASE32_ALPHABET[d]
  }

  type Bit = x: int | 0 <= x < 2

  /** The lowest `count` bits of `x`, highest first. */
  function Bits(x: nat, count: nat): (bits: seq<Bit>)
    ensures |bits| == count
  {
    if count == 0 then [] else Bits(x / 2, count - 1) + [x % 2]
  }

  function BitsOfBytes(bytes: seq<byte>): (bits: seq<Bit>)
    ensures |bits| == 8 * |bytes|
  {
    if bytes == [] then [] else BitsOfBytes(bytes[..|bytes| - 1]) + Bits(bytes[|bytes| - 1], 8)
  }

  function BitsOfDigits(digits: seq<Digit32>): (bits: seq<Bit>)
    ensures |bits| == 5 * |digits|
  {
    if digits == [] then [] else BitsOfDigits(digits[..|digits| - 1]) + Bits(digits[|digits| - 1], 5)
  }

  function Value2(bits: seq<Bit>): nat {
    if bits == [] then 0 else 2 * Value2(bits[..|bits| - 1]) + bits[|bits| - 1]
  }

  lemma {:induction false} Value2Append(before: seq<Bit>, x: nat, k: nat)
    requires x < Shl(1, k)
    ensures Value2(before + Bits(x, k)) == Shl(Value2(before), k) + x
  {
    if k == 0 {
      assert before + Bits(x, k) == before;
    } else {
      Value2Append(before, x / 2, k - 1);
      assert (before + Bits(x, k))[..|before| + k - 1] == before + Bits(x / 2, k - 1);
    }
  }

  lemma {:induction false} Value2OfBytes(bytes: seq<byte>)
    ensures Value2(BitsOfBytes(bytes)) == Value256(bytes)
  {
    if bytes != [] {
      var front := bytes[..|bytes| - 1];
      Value2OfBytes(front);
      ShlConstants(1);
      ShlConstants(Value256(front));
      Value2Append(BitsOfBytes(front), bytes[|bytes| - 1], 8);
    }
  }

  lemma {:induction false} Value2OfDigits(digits: seq<Digit32>)
    ensures Value2(BitsOfDigits(digits)) == Value32(digits)
  {
    if digits != [] {
      var front := digits[..|digits| - 1];
      Value2OfDigits(front);
      ShlConstants(1);
      ShlConstants(Value32(front));
      Value2Append(BitsOfDigits(front), digits[|digits| - 1], 5);
    }
  }

  lemma {:induction false} Value2IsInjective(a: seq<Bit>, b: seq<Bit>)
    requires |a| == |b| && Value2(a) == Value2(b)
    ensures a == b
  {
    if a != [] {
      var n := |a| - 1;
      Value2IsInjective(a[..n], b[..n]);
      assert a == a[..n] + [a[n]] && b == b[..n] + [b[n]];
    }
  }

  /** RFC 4648 section 6: after "pg" the id holds the bits of the bytes in order and two zero
      bits, five bits a symbol, highest first. */
  lemma EncodingIsBase32(bytes: IntentBytes) returns (digits: seq<Digit32>)
    ensures |digits| == 26 && |Encoding(bytes)| == 28 && Encoding(bytes)[..2] == PREFIX
    ensures forall k :: 0 <= k < 26 ==> Spells(Encoding(bytes)[2 + k], digits[k])
    ensures BitsOfDigits(digits) == BitsOfBytes(bytes) + [0, 0]
  {
    digits := Digits32(4 * Value256(bytes), |bytes| + 10);
    DigitsHoldTheBits(bytes);
    SpelledOut(bytes, digits);
  }

  lemma SpelledOut(bytes: IntentBytes, digits: seq<Digit32>)
    requires Encoding(bytes) == PREFIX + Symbols(digits)
    ensures |Encoding(bytes)| == 2 + |digits| && Encoding(bytes)[..2] == PREFIX
    ensures forall k :: 0 <= k < |digits| ==> Spells(Encoding(bytes)[2 + k], digits[k])
  {
    DigitsOfSymbols(digits);
    forall k | 0 <= k < |digits| ensures Spells(Encoding(bytes)[2 + k], digits[k]) {
      SymbolAt(digits, k);
    }
  }

  lemma DigitsHoldTheBits(bytes: IntentBytes)
    ensures BitsOfDigits(Digits32(4 * Value256(bytes), 26)) == BitsOfBytes(bytes) + [0, 0]
  {
    var digits := Digits32(4 * Value256(bytes), 26);
    Digits256OfValue(bytes);
    PadBits();
    Value32OfDigits(4 * Value256(bytes), 26);
    Value2OfDigits(digits);
    Value2OfBytes(bytes);
    TwoZeroBits(BitsOfBytes(bytes));
    Value2IsInjective(BitsOfDigits(digits), BitsOfBytes(bytes) + [0, 0]);
  }

  lemma TwoZeroBits(bits: seq<Bit>)
    ensures Value2(bits + [0, 0]) == 4 * Value2(bits)
  {
    assert (bits + [0, 0])[..|bits| + 1] == bits + [0];
    assert (bits + [0])[..|bits|] == bits;
  }

  lemma {:induction false} SymbolAt(digits: seq<Digit32>, k: nat)
    requires k < |digits|
    ensures |Symbols(digits)| == |digits| && Spells(Symbols(digits)[k], digits[k])
  {
    var n := |digits| - 1;
    DigitsOfSymbols(digits[..n]);
    if k < n {
      SymbolAt(digits[..n], k);
    } else {
      SymbolsAreTheAlphabet(digits[n]);
    }
  }

  // ---------------------------------------------------------------- the durable id

  function HexDigit(n: int): byte
    requires 0 <= n < 16
  {
    if n < 10 then 48 + n else 97 + (n - 10)
  }

  /** `is_ascii_hexdigit` and `from_str_radix` accept both cases. */
  function HexValue(c: byte): (v: Option<nat>)
    ensures v.Some? ==> v.value < 16
  {
    if 48 <= c <= 57 then Some(c - 48)
    else if 97 <= c <= 102 then Some(c - 87)
    else if 65 <= c <= 70 then Some(c - 55)
    else None
  }

  function Hex(bytes: seq<byte>): seq<byte> {
    if bytes == [] then []
    else Hex(bytes[..|bytes| - 1]) + [HexDigit(bytes[|bytes| - 1] / 16), HexDigit(bytes[|bytes| - 1] % 16)]
  }

  function DurableId(bytes: IntentBytes): seq<byte> {
    PREFIX + Hex(bytes)
  }

  /** The durable identity of a Binance id. */
  function DurableOfVenue(venueId: seq<byte>): Option<seq<byte>> {
    match Decoding(venueId)
    case None => None
    case Some(bytes) => Some(DurableId(bytes))
  }

  method DurableClientOrderId(venueId: seq<byte>) returns (r: Option<seq<byte>>)
    ensures r == DurableOfVenue(venueId)
  {
    var decoded := DecodeIntentBytes(venueId);
    if decoded.None? {
      return None;
    }
    var bytes := decoded.value;
    var id := PREFIX;
    for i := 0 to 16
      invariant id == PREFIX + Hex(bytes[..i])
    {
      assert bytes[..i + 1][..i] == bytes[..i];
      id := id + [HexDigit(bytes[i] / 16), HexDigit(bytes[i] % 16)];
    }
    assert bytes[..16] == bytes;
    return Some(id);
  }

  datatype ConversionError =
    | InvalidDurableId
    | NoncanonicalDurableId
    | SplitCharacter  // slicing a string inside a multi-byte character panics

  /** A UTF-8 continuation byte: no string slice may end in front of it. */
  predicate Continuation(c: byte) {
    0x80 <= c < 0xC0
  }

  /** The first `count` two-digit sections of the hex part. */
  function Sections(hex: seq<byte>, count: nat): (r: Result<seq<byte>, ConversionError>)
    requires 2 * count <= |hex|
    ensures r.Ok? ==> |r.value| == count
    ensures r.Err? ==> !r.error.NoncanonicalDurableId?
  {
    if count == 0 then Ok([])
    else
      match Sections(hex, count - 1)
      case Err(e) => Err(e)
      case Ok(front) =>
        if 2 * count < |hex| && Continuation(hex[2 * count]) then Err(SplitCharacter)
        else
          var high, low := HexValue(hex[2 * count - 2]), HexValue(hex[2 * count - 1]);
          if high.None? || low.None? then Err(InvalidDurableId)
          else Ok(front + [high.value * 16 + low.value])
  }

  /** The Binance id of a durable identity, refused unless it maps back to the same text. */
  function VenueOfDurable(durable: seq<byte>): Result<seq<byte>, ConversionError> {
    if |durable| != 34 || durable[..2] != PREFIX then Err(InvalidDurableId)
    else
      match Sections(durable[2..], 16)
      case Err(e) => Err(e)
      case Ok(bytes) =>
        if DurableOfVenue(Encoding(bytes)) != Some(durable) then Err(NoncanonicalDurableId)
        else Ok(Encoding(bytes))
  }

  lemma {:induction false} SectionsFail(hex: seq<byte>, count: nat, total: nat)
    requires count <= total && 2 * total <= |hex| && Sections(hex, count).Err?
    ensures Sections(hex, total) == Sections(hex, count)
  {
    if count < total { SectionsFail(hex, count, total - 1); }
  }

  /** The section loop: sixteen bytes, or the first section's error. */
  method ReadSections(hex: seq<byte>) returns (r: Result<seq<byte>, ConversionError>)
    requires |hex| == 32
    ensures r == Sections(hex, 16)
  {
    var bytes: seq<byte> := seq(16, _ => 0);
    for i := 0 to 16
      invariant |bytes| == 16 && Sections(hex, i) == Ok(bytes[..i])
    {
      if 2 * i + 2 < |hex| && Continuation(hex[2 * i + 2]) {
        SectionsFail(hex, i + 1, 16);
        return Err(SplitCharacter);
      }
      var high, low := HexValue(hex[2 * i]), HexValue(hex[2 * i + 1]);
      if high.None? || low.None? {
        SectionsFail(hex, i + 1, 16);
        return Err(InvalidDurableId);
      }
      StoreNext(bytes, i, high.value * 16 + low.value);
      bytes := bytes[i := high.value * 16 + low.value];
    }
    assert bytes[..16] == bytes;
    return Ok(bytes);
  }

  method VenueIdFromDurable(durable: seq<byte>) returns (r: Result<seq<byte>, ConversionError>)
    ensures r == VenueOfDurable(durable)
  {
    if |durable| < 2 || durable[..2] != PREFIX || |durable[2..]| != 32 {
      return Err(InvalidDurableId);
    }
    var bytes := ReadSections(durable[2..]);
    if bytes.Err? {
      return Err(bytes.error);
    }
    var venueId := EncodeIntentBytes(bytes.value);
    var back := DurableClientOrderId(venueId);
    if back != Some(durable) {
      return Err(NoncanonicalDurableId);
    }
    return Ok(venueId);
  }

  lemma {:induction false} HexLength(bytes: seq<byte>)
    ensures |Hex(bytes)| == 2 * |bytes|
    ensures forall i :: 0 <= i < |Hex(bytes)| ==> !Continuation(Hex(bytes)[i])
  {
    if bytes != [] { HexLength(bytes[..|bytes| - 1]); }
  }

  lemma {:induction false} SectionsOfHex(bytes: seq<byte>, hex: seq<byte>, count: nat)
    requires count <= |bytes| && hex == Hex(bytes)
    requires |hex| == 2 * |bytes| && forall i :: 0 <= i < |hex| ==> !Continuation(hex[i])
    ensures Sections(hex, count) == Ok(bytes[..count])
  {
    if count > 0 {
      SectionsOfHex(bytes, hex, count - 1);
      HexAt(bytes, count - 1);
      HexDigits(bytes[count - 1]);
      assert bytes[..count - 1] + [bytes[count - 1]] == bytes[..count];
    }
  }

  lemma HexDigits(b: byte)
    ensures HexValue(HexDigit(b / 16)) == Some(b / 16) && HexValue(HexDigit(b % 16)) == Some(b % 16)
    ensures (b / 16) * 16 + b % 16 == b
  {
  }

  lemma {:induction false} HexAt(bytes: seq<byte>, i: nat)
    requires i < |bytes|
    ensures |Hex(bytes)| == 2 * |bytes|
    ensures Hex(bytes)[2 * i] == HexDigit(bytes[i] / 16) && Hex(bytes)[2 * i + 1] == HexDigit(bytes[i] % 16)
  {
    var front := bytes[..|bytes| - 1];
    HexLength(front);
    if i < |front| {
      HexAt(front, i);
    }
  }

  /** The two identities are in bijection: one conversion answers exactly when the other
      maps back, so no identity is invented, merged or lost. */
  lemma IdentitiesAreABijection(durable: seq<byte>, venueId: seq<byte>)
    ensures VenueOfDurable(durable) == Ok(venueId) <==> DurableOfVenue(venueId) == Some(durable)
  {
    if DurableOfVenue(venueId) == Some(durable) {
      var bytes := Decoding(venueId).value;
      EncodingOfDecoding(venueId);
      HexLength(bytes);
      assert durable[2..] == Hex(bytes);
      SectionsOfHex(bytes, Hex(bytes), 16);
      assert bytes[..16] == bytes;
    }
  }

  lemma HexDigitsAreTheAlphabet(n: int)
    requires 0 <= n < 16
    ensures HexDigit(n) as char == HEX_ALPHABET[n]
  {
  }

  /** The durable id spells the bytes in order, the high half of each first. */
  lemma DurableIdIsHex(bytes: IntentBytes, i: nat)
    requires i < 16
    ensures |DurableId(bytes)| == 34 && DurableId(bytes)[..2] == PREFIX
    ensures DurableId(bytes)[2 + 2 * i] as char == HEX_ALPHABET[bytes[i] / 16]
    ensures DurableId(bytes)[3 + 2 * i] as char == HEX_ALPHABET[bytes[i] % 16]
  {
    HexAt(bytes, i);
    HexDigitsAreTheAlphabet(bytes[i] / 16);
    HexDigitsAreTheAlphabet(bytes[i] % 16);
  }

  // ---------------------------------------------------------------- which durable ids convert

  predicate LowerHex(c: byte) {
    c as char in HEX_ALPHABET
  }

  predicate UpperHex(c: byte) {
    'A' <= c as char <= 'F'
  }

  lemma HexValueMeaning(c: byte)
    ensures HexValue(c).Some? <==> LowerHex(c) || UpperHex(c)
    ensures HexValue(c).Some? ==> (HexDigit(HexValue(c).value) == c <==> LowerHex(c)) && !Continuation(c)
  {
    assert LowerHex(c) <==> 48 <= c <= 57 || 97 <= c <= 102 by {
      if 48 <= c <= 57 { assert HEX_ALPHABET[c - 48] == c as char; }
      if 97 <= c <= 102 { assert HEX_ALPHABET[c - 87] == c as char; }
    }
  }

  /** Section boundaries up to `count` are not inside a multi-byte character. */
  predicate Sliceable(hex: seq<byte>, count: nat) {
    forall k :: 1 <= k <= count && 2 * k < |hex| ==> !Continuation(hex[2 * k])
  }

  predicate AllHex(hex: seq<byte>, count: nat)
    requires count <= |hex|
  {
    forall i :: 0 <= i < count ==> HexValue(hex[i]).Some?
  }

  lemma {:induction false} SectionsSucceed(hex: seq<byte>, count: nat)
    requires 2 * count <= |hex|
    ensures Sections(hex, count).Ok? <==> Sliceable(hex, count) && AllHex(hex, 2 * count)
  {
    if count > 0 {
      SectionsSucceed(hex, count - 1);
    }
  }

  lemma {:induction false} SectionAt(hex: seq<byte>, count: nat, k: nat)
    requires k < count && 2 * count <= |hex| && Sections(hex, count).Ok?
    ensures HexValue(hex[2 * k]).Some? && HexValue(hex[2 * k + 1]).Some?
    ensures Sections(hex, count).value[k] / 16 == HexValue(hex[2 * k]).value
    ensures Sections(hex, count).value[k] % 16 == HexValue(hex[2 * k + 1]).value
  {
    if k < count - 1 {
      SectionAt(hex, count - 1, k);
    }
  }

  /** A durable id converts exactly when "pg" is followed by 32 lower-case hex digits; with
      upper-case digits among them it is refused as non-canonical. */
  lemma ConversionMeaning(durable: seq<byte>)
    ensures VenueOfDurable(durable).Ok?
       <==> |durable| == 34 && durable[..2] == PREFIX && forall i :: 2 <= i < 34 ==> LowerHex(durable[i])
    ensures VenueOfDurable(durable) == Err(NoncanonicalDurableId)
       <==> && |durable| == 34 && durable[..2] == PREFIX
            && (forall i :: 2 <= i < 34 ==> LowerHex(durable[i]) || UpperHex(durable[i]))
            && (exists i :: 2 <= i < 34 && !LowerHex(durable[i]))
  {
    if |durable| == 34 && durable[..2] == PREFIX {
      var hex := durable[2..];
      SectionsSucceed(hex, 16);
      forall i | 0 <= i < 32 ensures
          && hex[i] == durable[i + 2]
          && (HexValue(hex[i]).Some? <==> LowerHex(hex[i]) || UpperHex(hex[i]))
          && (HexValue(hex[i]).Some? ==> !Continuation(hex[i])) {
        HexValueMeaning(hex[i]);
      }
      if Sections(hex, 16).Ok? {
        var bytes: IntentBytes := Sections(hex, 16).value;
        SpelledAlike(hex, bytes);
        DecodingOfEncoding(bytes);
        assert durable == PREFIX + hex;
        assert DurableId(bytes)[2..] == Hex(bytes);
        assert forall i :: 2 <= i < 34 ==> durable[i] == hex[i - 2];
        if !VenueOfDurable(durable).Ok? {
          var i :| 0 <= i < 32 && !LowerHex(hex[i]);
          assert !LowerHex(durable[i + 2]);
        }
      }
    }
  }

  lemma SpelledAlike(hex: seq<byte>, bytes: IntentBytes)
    requires |hex| == 32 && Sections(hex, 16) == Ok(bytes)
    ensures Hex(bytes) == hex <==> forall i :: 0 <= i < 32 ==> LowerHex(hex[i])
  {
    HexLength(bytes);
    forall i | 0 <= i < 32 ensures Hex(bytes)[i] == hex[i] <==> LowerHex(hex[i]) {
      SectionAt(hex, 16, i / 2);
      HexAt(bytes, i / 2);
      HexValueMeaning(hex[i]);
      assert i == 2 * (i / 2) || i == 2 * (i / 2) + 1;
    }
  }

  /** The conversion panics exactly when, past nothing but hex digits, the next section ends
      inside a multi-byte character (its next byte has the bits 10 in front). */
  lemma {:induction false} SplitMeaning(hex: seq<byte>, count: nat)
    requires 2 * count <= |hex|
    ensures Sections(hex, count) == Err(SplitCharacter)
       <==> exists k :: && 1 <= k <= count && 2 * k < |hex| && hex[2 * k] / 64 == 2
                        && Sections(hex, k - 1).Ok?
  {
    if count > 0 {
      SplitMeaning(hex, count - 1);
    }
  }
}
