/**
  32-bit words as `ikcp.c` uses them: wrapping counters and clocks, compared by the signed value
  of their difference (serial-number arithmetic, section 3.2 of RFC 1982).

  The endpoint functions of this project are written once, over an `Arith`: `Bits32` is the
  arithmetic the C code runs on, `Unbounded` the arithmetic it stands for.
*/
module Serial {
  const TWO31 := 0x8000_0000
  const TWO32 := 0x1_0000_0000

  datatype Option<T> = None | Some(value: T)

  type Word = x: int | 0 <= x < TWO32

  /** A C `int`. */
  type cint = x: int | -TWO31 <= x < TWO31

  function Wrap(x: int): Word {
    x % TWO32
  }

  /** The two's-complement reading of a 32-bit value. */
  function Signed(x: int): int {
    var w := Wrap(x);
    if w < TWO31 then w else w - TWO32
  }

  /** `_itimediff`. */
  function TimeDiff(later: int, earlier: int): int {
    Signed(later - earlier)
  }

  /** C division of signed integers truncates toward zero. */
  function TruncDiv(a: int, b: int): int
    requires b > 0
  {
    if a >= 0 then a / b else -((-a) / b)
  }

  function Min(a: int, b: int): int {
    if a <= b then a else b
  }

  function Max(a: int, b: int): int {
    if a >= b then a else b
  }

  /** `_ibound_`: the lower bound is applied first, so the upper one wins. */
  function Bound(lower: int, middle: int, upper: int): int {
    Min(Max(lower, middle), upper)
  }

  datatype Arith = Bits32 | Unbounded {
    /** Stores a counter. */
    function Norm(x: nat): nat {
      if Bits32? then Wrap(x) else x
    }

    /** Compares two counters. */
    function Diff(later: int, earlier: int): int {
      if Bits32? then TimeDiff(later, earlier) else later - earlier
    }

    /** The values a stored counter can have. */
    predicate Is(x: nat) {
      Bits32? ==> x < TWO32
    }
  }

  lemma WrapSmall(x: int)
    requires 0 <= x < TWO32
    ensures Wrap(x) == x
  {
  }

  lemma SignedUnique(x: int, k: int, d: int)
    requires x == d + k * TWO32 && -TWO31 <= d < TWO31
    ensures Signed(x) == d
  {
    if d >= 0 {
      assert x % TWO32 == d;
    } else {
      assert x == (d + TWO32) + (k - 1) * TWO32;
      assert x % TWO32 == d + TWO32;
    }
  }

  lemma SignedShape(x: int) returns (k: int)
    ensures x == Signed(x) + k * TWO32
    ensures -TWO31 <= Signed(x) < TWO31
  {
    k := if Wrap(x) < TWO31 then x / TWO32 else x / TWO32 + 1;
  }

  /**
    `_itimediff` on the low 32 bits of two unbounded counters is their true difference exactly
    when they are less than half the number circle apart.
  */
  lemma TimeDiffExact(a: int, b: int)
    ensures TimeDiff(Wrap(a), Wrap(b)) == a - b <==> -TWO31 <= a - b < TWO31
  {
    var k := SignedShape(Wrap(a) - Wrap(b));
    if -TWO31 <= a - b < TWO31 {
      SignedUnique(Wrap(a) - Wrap(b), b / TWO32 - a / TWO32, a - b);
    }
  }

  /** Differences add up as long as the sum stays within half the number circle. */
  lemma DiffChain(ar: Arith, x: int, y: int, z: int)
    requires ar.Bits32? ==> -TWO31 <= ar.Diff(x, y) + ar.Diff(y, z) < TWO31
    ensures ar.Diff(x, z) == ar.Diff(x, y) + ar.Diff(y, z)
  {
    if ar.Bits32? {
      var k := SignedShape(x - y);
      var l := SignedShape(y - z);
      SignedUnique(x - z, k + l, ar.Diff(x, y) + ar.Diff(y, z));
    }
  }

  /** Advancing a stored counter advances every comparison with it. */
  lemma DiffAdvance(ar: Arith, x: nat, n: nat, y: int)
    requires ar.Bits32? ==> -TWO31 <= ar.Diff(x, y) + n < TWO31
    ensures ar.Diff(ar.Norm(x + n), y) == ar.Diff(x, y) + n
    ensures ar.Is(ar.Norm(x + n))
  {
    if ar.Bits32? {
      var k := SignedShape(x - y);
      SignedUnique(Wrap(x + n) - y, k - (x + n) / TWO32, ar.Diff(x, y) + n);
    }
  }

  lemma DiffZero(ar: Arith, x: nat, y: nat)
    requires ar.Is(x) && ar.Is(y)
    ensures ar.Diff(x, y) == 0 <==> x == y
  {
    if ar.Bits32? {
      var k := SignedShape(x - y);
    }
  }

  lemma DiffNegate(ar: Arith, x: int, y: int)
    requires ar.Bits32? ==> ar.Diff(x, y) != -TWO31
    ensures ar.Diff(y, x) == -ar.Diff(x, y)
  {
    if ar.Bits32? {
      var k := SignedShape(x - y);
      SignedUnique(y - x, -k, -ar.Diff(x, y));
    }
  }
}
