/** Floating-point quantities of the decoder, kept symbolically.

    A coordinate is the expression that computes it: a raw IEEE 754 field read from the
    file, an integer constant, a sample of the angle grid, or an arithmetic or
    trigonometric combination of those. Two equal expressions denote the same float
    (every operation is a deterministic function of its operands), so vertex counts,
    de-interleaving and ring closure are statements about these terms; the numeric
    value of a term is never needed. */
module Floats {
  import opened LittleEndian

  datatype Num =
    | Single(bits: seq<byte>)   // an `f` field: 4 bytes of a little-endian binary32
    | Double(bits: seq<byte>)   // a `d` field: 8 bytes of a little-endian binary64
    | Whole(n: int)             // an integer constant used as a float
    | Turn(k: nat)              // element k of `np.arange(0, 1., 1/100) * 2 * np.pi`, 0 < k < 100
    | Plus(a: Num, b: Num)
    | Minus(a: Num, b: Num)
    | Times(a: Num, b: Num)
    | Over(a: Num, b: Num)
    | Cos(a: Num)
    | Sin(a: Num)

  /** A vertex (x, y), one row of the `(N, 2)` arrays of the converter. */
  type Point = (Num, Num)

  /** Element k of `np.arange(0, 1., 1/100) * 2 * np.pi`. Element 0 is 0 * 0.01 * 2 * pi,
      which is exactly 0.0 in IEEE arithmetic: the same float as the 0 appended after it. */
  function Sample(k: nat): (a: Num)
    ensures k == 0 <==> a == Whole(0)
  {
    if k == 0 then Whole(0) else Turn(k)
  }

  /** The 101 angles of the circle and ellipse readers: 100 samples of a turn, then `np.append(a, 0)`. */
  function Angles(): (a: seq<Num>)
    ensures |a| == 101
    ensures a[0] == a[100]
    ensures forall k :: 0 < k < 100 ==> a[k] == Turn(k)
  {
    seq(100, k requires 0 <= k => Sample(k)) + [Whole(0)]
  }
}
