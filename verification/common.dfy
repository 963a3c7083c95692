/** Shared value types: the C integer widths the wrapper layer uses and the
    optional value its lookups return. */
module Common {

  /** An unsigned byte (`u8`). */
  newtype u8 = x: int | 0 <= x < 0x100

  /** A C `unsigned int` (`c_uint`, 32 bits on every target the core supports). */
  newtype u32 = x: int | 0 <= x < 0x1_0000_0000

  /** The signed 16-bit value an input-state callback returns. */
  newtype i16 = x: int | -0x8000 <= x < 0x8000

  const U32_LIMIT: nat := 0x1_0000_0000
  const U64_LIMIT: nat := 0x1_0000_0000_0000_0000

  datatype Option<+T> = None | Some(value: T)

  /** Every `a` in `t` comes before every `b` in `t`. */
  ghost predicate Precedes<T>(t: seq<T>, a: T, b: T)
  {
    forall i, j :: 0 <= i < |t| && 0 <= j < |t| && t[i] == a && t[j] == b ==> i < j
  }

  /** Every `a` of `x + y` precedes every `b` when the `a`s all lie in `x`
      and the `b`s all lie in `y`. */
  lemma PrecedesAcross<T>(x: seq<T>, y: seq<T>, a: T, b: T)
    requires b !in x && a !in y
    ensures Precedes(x + y, a, b)
  {
  }

  /** `n` copies of `x`. */
  function Repeat<T>(x: T, n: nat): (s: seq<T>)
    ensures |s| == n
    ensures forall i :: 0 <= i < n ==> s[i] == x
  {
    if n == 0 then [] else [x] + Repeat(x, n - 1)
  }

  /** `n` copies of `x` hold `x` exactly `n` times and nothing else. */
  lemma {:induction false} RepeatCount<T>(x: T, n: nat, y: T)
    ensures multiset(Repeat(x, n))[y] == if x == y then n else 0
  {
    if n > 0 {
      RepeatCount(x, n - 1, y);
    }
  }

  /** One more copy at the end is one more copy. */
  lemma {:induction false} RepeatSnoc<T>(x: T, n: nat)
    ensures Repeat(x, n) + [x] == Repeat(x, n + 1)
  {
    if n > 0 {
      RepeatSnoc(x, n - 1);
      assert Repeat(x, n) + [x] == [x] + (Repeat(x, n - 1) + [x]);
    }
  }
}
