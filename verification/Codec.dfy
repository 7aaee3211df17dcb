/** Register words and values: the gateway's encoder and the acquisition side's decoder. */
module Codec {
  import opened Common
  import opened Numbers
  import opened GatewayConfig

  /** A double: a finite value other than negative zero, or one of the special ones. */
  datatype F64 = Finite(r: real) | NegZero | PosInf | NegInf | NaN

  /** Conversions between binary32 bit patterns and doubles. */
  datatype Float32 = Float32(widen: u32 -> F64, narrow: F64 -> u32)

  const EXPONENT_MASK: u32 := 0x7F80_0000

  /** A binary32 NaN: all exponent bits set and a nonzero fraction. */
  predicate IsNaNBits(b: u32) {
    b % 0x8000_0000 > EXPONENT_MASK
  }

  /** Widening is exact, so narrowing undoes it, except that a NaN may change its payload. */
  ghost predicate ExactWidening(f: Float32) {
    forall b: u32 :: !IsNaNBits(b) ==> f.narrow(f.widen(b)) == b
  }

  // ----- Decoding -----

  function Combine(words: seq<u16>, order: WordOrder): u32
    requires |words| >= 2
  {
    match order
    case Big => Join(words[0], words[1])
    case Little => Join(words[1], words[0])
  }

  function AsI16(w: u16): int {
    if w < 0x8000 then w else w - 0x1_0000
  }

  function AsI32(w: u32): int {
    if w < 0x8000_0000 then w else w - 0x1_0000_0000
  }

  function FromInt(n: int): F64 {
    Finite(n as real)
  }

  function DecodeWords(f: Float32, words: seq<u16>, t: ValueType, order: WordOrder): F64
    requires |words| >= RegisterCount(t)
  {
    match t
    case U16 => FromInt(words[0])
    case I16 => FromInt(AsI16(words[0]))
    case U32 => FromInt(Combine(words, order))
    case I32 => FromInt(AsI32(Combine(words, order)))
    case F32 => f.widen(Combine(words, order))
    case Bool => FromInt(if words[0] != 0 then 1 else 0)
  }

  // ----- Encoding -----

  /** Rounding and then a saturating cast to an integer range that contains zero. */
  function Cast(v: F64, lo: int, hi: int): int
    requires lo <= 0 <= hi
  {
    match v
    case Finite(r) => Clamp(Round(r), lo, hi)
    case NegZero => 0
    case PosInf => hi
    case NegInf => lo
    case NaN => 0
  }

  function FromI16(n: int): u16
    requires -0x8000 <= n <= 0x7FFF
  {
    if n >= 0 then n else n + 0x1_0000
  }

  function FromI32(n: int): u32
    requires -0x8000_0000 <= n <= 0x7FFF_FFFF
  {
    if n >= 0 then n else n + 0x1_0000_0000
  }

  function Split32(v: u32, order: WordOrder): seq<u16> {
    match order
    case Big => [High(v), Low(v)]
    case Little => [Low(v), High(v)]
  }

  predicate NonZero(v: F64) {
    v != NegZero && v != Finite(0.0)
  }

  function EncodeValue(f: Float32, v: F64, t: ValueType, order: WordOrder): seq<u16> {
    match t
    case U16 => [Cast(v, 0, 0xFFFF)]
    case I16 => [FromI16(Cast(v, -0x8000, 0x7FFF))]
    case U32 => Split32(Cast(v, 0, 0xFFFF_FFFF), order)
    case I32 => Split32(FromI32(Cast(v, -0x8000_0000, 0x7FFF_FFFF)), order)
    case F32 => Split32(f.narrow(v), order)
    case Bool => [if NonZero(v) then 1 else 0]
  }

  // ----- Round trips -----

  lemma {:induction false} CombineSplit(v: u32, order: WordOrder)
    ensures Combine(Split32(v, order), order) == v
  {
    JoinHalves(v);
  }

  lemma {:induction false} SplitCombine(words: seq<u16>, order: WordOrder)
    requires |words| == 2
    ensures Split32(Combine(words, order), order) == words
  {
    HalvesOfJoin(words[0], words[1]);
    HalvesOfJoin(words[1], words[0]);
  }

  lemma {:induction false} CastOfInt(n: int, lo: int, hi: int)
    requires lo <= 0 <= hi && lo <= n <= hi
    ensures Cast(FromInt(n), lo, hi) == n
  {
    RoundOfInt(n);
  }

  /** The bits of an `F32` register that come back unchanged. */
  predicate Faithful(words: seq<u16>, t: ValueType, order: WordOrder)
    requires |words| == RegisterCount(t)
  {
    match t
    case F32 => !IsNaNBits(Combine(words, order))
    case Bool => words[0] <= 1
    case _ => true
  }

  lemma {:induction false} OneWordBack(f: Float32, w: u16, order: WordOrder)
    ensures EncodeValue(f, DecodeWords(f, [w], U16, order), U16, order) == [w]
    ensures EncodeValue(f, DecodeWords(f, [w], I16, order), I16, order) == [w]
  {
    CastOfInt(w, 0, 0xFFFF);
    CastOfInt(AsI16(w), -0x8000, 0x7FFF);
  }

  lemma {:induction false} BitBack(f: Float32, w: u16, order: WordOrder)
    ensures EncodeValue(f, DecodeWords(f, [w], Bool, order), Bool, order) == [w] <==> w <= 1
  {
  }

  lemma {:induction false} TwoWordsBack(f: Float32, words: seq<u16>, order: WordOrder)
    requires |words| == 2
    ensures EncodeValue(f, DecodeWords(f, words, U32, order), U32, order) == words
    ensures EncodeValue(f, DecodeWords(f, words, I32, order), I32, order) == words
  {
    var v := Combine(words, order);
    CastOfInt(v, 0, 0xFFFF_FFFF);
    CastOfInt(AsI32(v), -0x8000_0000, 0x7FFF_FFFF);
    assert FromI32(AsI32(v)) == v;
    SplitCombine(words, order);
  }

  lemma {:induction false} FloatBack(f: Float32, words: seq<u16>, order: WordOrder)
    requires ExactWidening(f) && |words| == 2 && !IsNaNBits(Combine(words, order))
    ensures EncodeValue(f, DecodeWords(f, words, F32, order), F32, order) == words
  {
    SplitCombine(words, order);
  }

  /** Encoding what was decoded gives back the words: always for integers, for every non-NaN
      binary32 pattern, and for a boolean word when it is 0 or 1. */
  lemma {:induction false} EncodeDecode(f: Float32, words: seq<u16>, t: ValueType, order: WordOrder)
    requires |words| == RegisterCount(t) && (t == F32 ==> ExactWidening(f))
    ensures Faithful(words, t, order) ==> EncodeValue(f, DecodeWords(f, words, t, order), t, order) == words
    ensures t == Bool && !Faithful(words, t, order) ==>
              EncodeValue(f, DecodeWords(f, words, t, order), t, order) != words
  {
    if t == U32 || t == I32 {
      TwoWordsBack(f, words, order);
    } else if t == F32 {
      if Faithful(words, t, order) {
        FloatBack(f, words, order);
      }
    } else {
      assert words == [words[0]];
      OneWordBack(f, words[0], order);
      BitBack(f, words[0], order);
    }
  }

  /** The value a register of type `t` can hold that is read back for `v`. */
  function Held(f: Float32, v: F64, t: ValueType): F64 {
    match t
    case U16 => FromInt(Cast(v, 0, 0xFFFF))
    case I16 => FromInt(Cast(v, -0x8000, 0x7FFF))
    case U32 => FromInt(Cast(v, 0, 0xFFFF_FFFF))
    case I32 => FromInt(Cast(v, -0x8000_0000, 0x7FFF_FFFF))
    case F32 => f.widen(f.narrow(v))
    case Bool => FromInt(if NonZero(v) then 1 else 0)
  }

  lemma {:induction false} SignedWords()
    ensures forall n :: -0x8000 <= n <= 0x7FFF ==> AsI16(FromI16(n)) == n
    ensures forall n :: -0x8000_0000 <= n <= 0x7FFF_FFFF ==> AsI32(FromI32(n)) == n
  {
  }

  lemma {:induction false} DecodeSplit(f: Float32, v: u32, order: WordOrder)
    ensures |Split32(v, order)| == 2
    ensures DecodeWords(f, Split32(v, order), U32, order) == FromInt(v)
    ensures DecodeWords(f, Split32(v, order), I32, order) == FromInt(AsI32(v))
    ensures DecodeWords(f, Split32(v, order), F32, order) == f.widen(v)
  {
    CombineSplit(v, order);
  }

  /** Decoding what was encoded gives the value rounded and limited to the type's range. */
  lemma {:induction false} DecodeEncode(f: Float32, v: F64, t: ValueType, order: WordOrder)
    ensures |EncodeValue(f, v, t, order)| == RegisterCount(t)
    ensures DecodeWords(f, EncodeValue(f, v, t, order), t, order) == Held(f, v, t)
  {
    if t == U32 {
      DecodeSplit(f, Cast(v, 0, 0xFFFF_FFFF), order);
    } else if t == I32 {
      DecodeSplit(f, FromI32(Cast(v, -0x8000_0000, 0x7FFF_FFFF)), order);
      SignedWords();
    } else if t == F32 {
      DecodeSplit(f, f.narrow(v), order);
    } else if t == I16 {
      SignedWords();
    }
  }

  /** The range of an integer type. */
  function LowestOf(t: ValueType): int {
    match t
    case I16 => -0x8000
    case I32 => -0x8000_0000
    case _ => 0
  }

  function HighestOf(t: ValueType): int {
    match t
    case U16 => 0xFFFF
    case I16 => 0x7FFF
    case U32 => 0xFFFF_FFFF
    case I32 => 0x7FFF_FFFF
    case _ => 1
  }

  predicate IsInteger(t: ValueType) {
    t == U16 || t == I16 || t == U32 || t == I32
  }

  /** What rounding and limiting means: an integer within the range, and none within the range is
      nearer to the value. */
  lemma {:induction false} HeldIsNearest(f: Float32, r: real, t: ValueType, n: int)
    requires IsInteger(t) && LowestOf(t) <= n <= HighestOf(t)
    ensures exists k :: LowestOf(t) <= k <= HighestOf(t) && Held(f, Finite(r), t) == FromInt(k)
                        && Distance(k as real, r) <= Distance(n as real, r)
  {
    var k := Cast(Finite(r), LowestOf(t), HighestOf(t));
    RoundIsNearest(r);
    assert Held(f, Finite(r), t) == FromInt(k);
    NearestInRange(r, LowestOf(t), HighestOf(t), n);
  }

  function Distance(a: real, b: real): real {
    if a < b then b - a else a - b
  }

  lemma {:induction false} NearestInRange(r: real, lo: int, hi: int, n: int)
    requires lo <= n <= hi
    ensures Distance(Clamp(Round(r), lo, hi) as real, r) <= Distance(n as real, r)
  {
    RoundIsNearest(r);
    var q := Round(r);
    if n < q {
      assert n as real <= q as real - 1.0;
    } else if n > q {
      assert n as real >= q as real + 1.0;
    }
  }
}
