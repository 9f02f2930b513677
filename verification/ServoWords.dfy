/** Sign-magnitude words and their bytes, as the servo protocol packs them. */
module ServoWords {

  type byte = x: int | 0 <= x < 256

  datatype Order = Little | Big

  const SIGN := 0x8000  // bit 15

  // a & SIGN, for a two's complement integer of any width
  predicate SignSet(a: int) { a / SIGN % 2 == 1 }

  function ToHost(a: int): int { if SignSet(a) then -(a - SIGN) else a }

  function ToScs(a: int): int {
    if a >= 0 then a else if SignSet(-a) then -a else -a + SIGN
  }

  function MakeWord(order: Order, a: int, b: int): int {
    match order
    case Little => a % 256 + 256 * (b % 256)
    case Big => b % 256 + 256 * (a % 256)
  }

  function LoByte(order: Order, w: int): byte {
    match order case Little => w % 256 case Big => w / 256 % 256
  }

  function HiByte(order: Order, w: int): byte {
    match order case Little => w / 256 % 256 case Big => w % 256
  }

  function MakeDword(a: int, b: int): int { a % 0x10000 + 0x10000 * (b % 0x10000) }

  function LoWord(w: int): int { w % 0x10000 }

  function HiWord(w: int): int { w / 0x10000 % 0x10000 }

  // Splitting and joining keeps the low sixteen bits, in either byte order.
  lemma SplitJoin(order: Order, w: int)
    ensures MakeWord(order, LoByte(order, w), HiByte(order, w)) == w % 0x10000
  {
    assert w == 0x10000 * (w / 0x10000) + w % 0x10000;
    assert w / 256 == 256 * (w / 0x10000) + (w % 0x10000) / 256;
    assert w % 256 == w % 0x10000 % 256;
    assert w / 256 % 256 == (w % 0x10000) / 256;
  }

  // A number survives packing, splitting, joining and unpacking exactly when its
  // magnitude fits in fifteen bits.
  lemma WordRoundTripIff(order: Order, x: int)
    ensures var w := ToScs(x);
      ToHost(MakeWord(order, LoByte(order, w), HiByte(order, w))) == x <==> -32767 <= x <= 32767
  {
    SplitJoin(order, ToScs(x));
    LowWordIff(x);
  }

  lemma LowWordIff(x: int)
    ensures ToHost(ToScs(x) % 0x10000) == x <==> -32767 <= x <= 32767
  {
    if -32767 <= x <= 32767 {
      SignMagnitude(x);
    } else {
      HostRange(ToScs(x) % 0x10000);
    }
  }

  lemma SignMagnitude(x: int)
    requires -32767 <= x <= 32767
    ensures 0 <= ToScs(x) < 0x10000 && ToHost(ToScs(x)) == x
  {
    if x < 0 { assert !SignSet(-x) && SignSet(-x + SIGN); } else { assert !SignSet(x); }
  }

  lemma HostRange(w: int)
    requires 0 <= w < 0x10000
    ensures -32767 <= ToHost(w) <= 32767
  {
    if w < SIGN { assert w / SIGN == 0; } else { assert w / SIGN == 1; }
  }

  // Two packed words in one double word come apart again, each with its sign.
  lemma DwordRoundTrip(x: int, y: int)
    requires -32767 <= x <= 32767 && -32767 <= y <= 32767
    ensures ToHost(LoWord(MakeDword(ToScs(x), ToScs(y)))) == x
    ensures ToHost(HiWord(MakeDword(ToScs(x), ToScs(y)))) == y
  {
    SignMagnitude(x);
    SignMagnitude(y);
    WordsApart(ToScs(x), ToScs(y));
  }

  lemma WordsApart(a: int, b: int)
    requires 0 <= a < 0x10000 && 0 <= b < 0x10000
    ensures LoWord(MakeDword(a, b)) == a && HiWord(MakeDword(a, b)) == b
  {
  }

  // A bulk read reports the raw word and a single read its signed value: they agree
  // exactly when the sign bit is clear.
  lemma RawEqualsSignedIff(w: int)
    requires 0 <= w < 0x10000
    ensures ToHost(w) == w <==> w < SIGN
  {
    if w < SIGN { assert w / SIGN == 0; } else { assert w / SIGN == 1; }
  }
}
