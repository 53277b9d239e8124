/** Small vocabulary shared by every component: optional and fallible results, and the
    saturating `usize` / `i64` arithmetic that the Rust sources rely on. */
module Basics {

  datatype Option<+T> = None | Some(value: T)

  datatype Result<+T, +E> = Ok(value: T) | Err(error: E)

  /** `usize::MAX` on the 64-bit targets the application is built for. */
  const USIZE_MAX: nat := 0xFFFF_FFFF_FFFF_FFFF

  const I64_MAX: int := 0x7FFF_FFFF_FFFF_FFFF
  const I64_MIN: int := -0x8000_0000_0000_0000

  newtype byte = x: int | 0 <= x < 256

  function Min(a: int, b: int): int { if a <= b then a else b }

  function Max(a: int, b: int): int { if a >= b then a else b }

  /** `usize::saturating_sub`. */
  function Monus(a: nat, b: nat): nat { if a <= b then 0 else a - b }

  /** `usize::saturating_mul`. */
  function SatMul(a: nat, b: nat): nat { if a * b <= USIZE_MAX then a * b else USIZE_MAX }

  /** `usize::saturating_add`. */
  function SatAdd(a: nat, b: nat): nat { if a + b <= USIZE_MAX then a + b else USIZE_MAX }

  /** `usize::div_ceil`. */
  function DivCeil(a: nat, b: nat): nat
    requires b > 0
  {
    (a + b - 1) / b
  }

  /** An `i64` result clamped to its range, as the `saturating_*` operations do. */
  function Clamp64(x: int): int {
    if x > I64_MAX then I64_MAX else if x < I64_MIN then I64_MIN else x
  }

  /** `char::to_ascii_lowercase`. */
  function AsciiLowerChar(c: char): char {
    if 'A' <= c <= 'Z' then (c as int + 32) as char else c
  }

  /** `str::to_ascii_lowercase`. */
  function AsciiLower(s: string): string {
    seq(|s|, i requires 0 <= i < |s| => AsciiLowerChar(s[i]))
  }

  /** Lowering keeps the place of a capital letter in the alphabet and leaves everything else alone. */
  lemma AsciiLowerAt(s: string, i: nat)
    requires i < |s|
    ensures |AsciiLower(s)| == |s|
    ensures 'A' <= s[i] <= 'Z' ==>
      'a' <= AsciiLower(s)[i] <= 'z' && AsciiLower(s)[i] as int - 'a' as int == s[i] as int - 'A' as int
    ensures !('A' <= s[i] <= 'Z') ==> AsciiLower(s)[i] == s[i]
  {
  }

  /** The rounded-up quotient covers its dividend, and by less than one divisor. */
  lemma DivCeilBounds(a: nat, b: nat)
    requires b > 0
    ensures a <= DivCeil(a, b) * b < a + b
  {
    var q := (a + b - 1) / b;
    var m := (a + b - 1) % b;
    assert a + b - 1 == q * b + m;
  }

  lemma MulCancel(p: int, q: int, b: nat)
    requires p * b < q * b
    ensures p < q
  {
  }

  /** Rounding up does not decrease when the dividend grows. */
  lemma DivCeilMonotone(a: nat, c: nat, b: nat)
    requires b > 0 && a <= c
    ensures DivCeil(a, b) <= DivCeil(c, b)
  {
    DivCeilBounds(a, b);
    DivCeilBounds(c, b);
    var p, q := DivCeil(a, b), DivCeil(c, b);
    assert p * b < (q + 1) * b;
    MulCancel(p, q + 1, b);
  }

  function Sum(s: seq<nat>): nat {
    if |s| == 0 then 0 else Sum(s[..|s| - 1]) + s[|s| - 1]
  }

  lemma {:induction false} SumConcat(a: seq<nat>, b: seq<nat>)
    ensures Sum(a + b) == Sum(a) + Sum(b)
  {
    if |b| == 0 {
      assert a + b == a;
    } else {
      assert (a + b)[..|a + b| - 1] == a + b[..|b| - 1];
      SumConcat(a, b[..|b| - 1]);
    }
  }

  /** Replacing one element moves the sum by the difference. */
  lemma {:induction false} SumUpdate(s: seq<nat>, i: nat, v: nat)
    requires i < |s|
    ensures Sum(s[i := v]) + s[i] == Sum(s) + v
  {
    var t := s[i := v];
    if i == |s| - 1 {
      assert t[..|t| - 1] == s[..|s| - 1];
    } else {
      SumUpdate(s[..|s| - 1], i, v);
      assert t[..|t| - 1] == s[..|s| - 1][i := v];
    }
  }

  lemma {:induction false} SumZeros(s: seq<nat>)
    requires forall i :: 0 <= i < |s| ==> s[i] == 0
    ensures Sum(s) == 0
  {
    if |s| > 0 { SumZeros(s[..|s| - 1]); }
  }

  lemma {:induction false} SumMonotone(s: seq<nat>, t: seq<nat>)
    requires |s| == |t|
    requires forall i :: 0 <= i < |s| ==> s[i] <= t[i]
    ensures Sum(s) <= Sum(t)
  {
    if |s| > 0 { SumMonotone(s[..|s| - 1], t[..|t| - 1]); }
  }
}
