/** The numbers that register words stand for, in plain arithmetic. */
module CodecLaws {
  import opened Common
  import opened Numbers
  import opened GatewayConfig
  import opened Codec

  // ----- From words to values -----

  /** One word: itself, the 16-bit integer `n` congruent to it, or whether it is nonzero. */
  lemma {:induction false} WordMeans(f: Float32, words: seq<u16>, order: WordOrder, n: int)
    requires |words| >= 1 && -32768 <= n <= 32767 && (n - words[0]) % 65536 == 0
    ensures DecodeWords(f, words, U16, order) == Finite(words[0] as real)
    ensures DecodeWords(f, words, I16, order) == Finite(n as real)
    ensures DecodeWords(f, words, Bool, order) == Finite(if words[0] == 0 then 0.0 else 1.0)
  {
  }

  /** Two words stand for `u` if the high one is first in big and last in little order. */
  predicate StandFor(words: seq<u16>, order: WordOrder, u: int)
    requires |words| >= 2
  {
    && (order == Big ==> u == 65536 * words[0] as int + words[1] as int)
    && (order == Little ==> u == 65536 * words[1] as int + words[0] as int)
  }

  /** Two words: the number `u` they stand for, the 32-bit integer `n` congruent to it, or the
      binary32 value with that bit pattern. */
  lemma {:induction false} WordPairMeans(f: Float32, words: seq<u16>, order: WordOrder, u: u32, n: int)
    requires |words| >= 2 && StandFor(words, order, u)
    requires -2147483648 <= n <= 2147483647 && (n - u) % 4294967296 == 0
    ensures DecodeWords(f, words, U32, order) == Finite(u as real)
    ensures DecodeWords(f, words, I32, order) == Finite(n as real)
    ensures DecodeWords(f, words, F32, order) == f.widen(u)
  {
  }

  // ----- From values to words -----

  /** `k` is nearer to `r` than `n`, or as near and not closer to zero. */
  ghost predicate Beats(r: real, k: int, n: int) {
    var a, b := Distance(k as real, r), Distance(n as real, r);
    a < b || (a == b && if r >= 0.0 then n <= k else k <= n)
  }

  /** `k` is what `v` is rounded to within a range: the integer of the range nearest to `v`, the one
      farther from zero if there are two; zero for NaN, and an end of the range for an infinity. */
  ghost predicate RoundsTo(v: F64, lo: int, hi: int, k: int) {
    match v
    case Finite(r) =>
      && lo <= k <= hi
      && forall n :: lo <= n <= hi ==> Beats(r, k, n)
    case NegZero => k == 0
    case PosInf => k == hi
    case NegInf => k == lo
    case NaN => k == 0
  }

  lemma {:induction false} RoundsToOne(v: F64, lo: int, hi: int, k: int, n: int)
    requires RoundsTo(v, lo, hi, k) && RoundsTo(v, lo, hi, n)
    ensures k == n
  {
    if v.Finite? {
      assert Beats(v.r, k, n) && Beats(v.r, n, k);
    }
  }

  lemma {:induction false} CastRounds(v: F64, lo: int, hi: int)
    requires lo <= 0 <= hi
    ensures RoundsTo(v, lo, hi, Cast(v, lo, hi))
  {
    if v.Finite? {
      var r, k := v.r, Cast(v, lo, hi);
      forall n | lo <= n <= hi ensures Beats(r, k, n) {
        NearestInRange(r, lo, hi, n);
        if Distance(k as real, r) == Distance(n as real, r) {
          TieAwayFromZero(r, lo, hi, n);
        }
      }
    }
  }

  lemma {:induction false} TieAwayFromZero(r: real, lo: int, hi: int, n: int)
    requires lo <= 0 <= hi && lo <= n <= hi
    requires Distance(Clamp(Round(r), lo, hi) as real, r) == Distance(n as real, r)
    ensures if r >= 0.0 then n <= Clamp(Round(r), lo, hi) else Clamp(Round(r), lo, hi) <= n
  {
    RoundIsNearest(r);
    var q := Round(r);
    if n < q {
      assert n as real <= q as real - 1.0;
    } else if n > q {
      assert n as real >= q as real + 1.0;
    }
  }

  /** One-word encodings: the rounded value, in two's complement if negative, and for a boolean
      whether the value is nonzero. */
  lemma {:induction false} ValueToWord(f: Float32, v: F64, order: WordOrder)
    ensures var words := EncodeValue(f, v, U16, order);
            |words| == 1 && RoundsTo(v, 0, 65535, words[0])
    ensures var words := EncodeValue(f, v, I16, order);
            && |words| == 1
            && RoundsTo(v, -32768, 32767, if words[0] < 32768 then words[0] as int else words[0] as int - 65536)
    ensures EncodeValue(f, v, Bool, order) == [if v == Finite(0.0) || v == NegZero then 0 else 1]
  {
    CastRounds(v, 0, 65535);
    CastRounds(v, -32768, 32767);
  }

  /** Two-word encodings stand for the rounded value, in two's complement if negative, or for the
      bit pattern of the value narrowed to binary32. */
  lemma {:induction false} ValueToWordPair(f: Float32, v: F64, order: WordOrder)
    ensures exists u :: |EncodeValue(f, v, U32, order)| == 2 && StandFor(EncodeValue(f, v, U32, order), order, u)
                        && RoundsTo(v, 0, 4294967295, u)
    ensures exists n :: |EncodeValue(f, v, I32, order)| == 2
                        && StandFor(EncodeValue(f, v, I32, order), order, if n < 0 then n + 4294967296 else n)
                        && RoundsTo(v, -2147483648, 2147483647, n)
    ensures |EncodeValue(f, v, F32, order)| == 2 && StandFor(EncodeValue(f, v, F32, order), order, f.narrow(v))
  {
    CastRounds(v, 0, 4294967295);
    CastRounds(v, -2147483648, 2147483647);
    var u, n := Cast(v, 0, 4294967295), Cast(v, -2147483648, 2147483647);
    SplitStandsFor(u, order);
    SplitStandsFor(FromI32(n), order);
    SplitStandsFor(f.narrow(v), order);
    assert StandFor(EncodeValue(f, v, U32, order), order, u);
    assert StandFor(EncodeValue(f, v, I32, order), order, if n < 0 then n + 4294967296 else n);
  }

  lemma {:induction false} SplitStandsFor(v: u32, order: WordOrder)
    ensures |Split32(v, order)| == 2 && StandFor(Split32(v, order), order, v)
  {
    JoinHalves(v);
  }
}
