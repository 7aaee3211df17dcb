/** Rounding, clamping and 16-bit halves, as used by both register encoders. */
module Numbers {
  import opened Common

  /** Nearest integer, halves away from zero. */
  function Round(r: real): int {
    if r >= 0.0 then (r + 0.5).Floor else -((0.5 - r).Floor)
  }

  function Clamp(x: int, lo: int, hi: int): int {
    if x < lo then lo else if x > hi then hi else x
  }

  /** Rounding goes to a nearest integer, and away from zero from the middle. */
  lemma {:induction false} RoundIsNearest(r: real)
    ensures -0.5 <= Round(r) as real - r <= 0.5
    ensures Round(r) as real - r == 0.5 ==> r >= 0.0
    ensures Round(r) as real - r == -0.5 ==> r < 0.0
  {
  }

  lemma {:induction false} RoundOfInt(n: int)
    ensures Round(n as real) == n
  {
    var x := n as real + 0.5;
    var y := 0.5 - n as real;
    assert x.Floor == n && y.Floor == -n;
  }

  function High(v: u32): u16 {
    v / 0x1_0000
  }

  function Low(v: u32): u16 {
    v % 0x1_0000
  }

  function Join(high: u16, low: u16): u32 {
    high * 0x1_0000 + low
  }

  lemma {:induction false} JoinHalves(v: u32)
    ensures Join(High(v), Low(v)) == v
  {
  }

  lemma {:induction false} HalvesOfJoin(high: u16, low: u16)
    ensures High(Join(high, low)) == high && Low(Join(high, low)) == low
  {
  }
}
