/** Fixed-width integers of the C# runtime and the Option wrapper used across the model. */
module Base {

  const TWO_TO_THE_32: int := 0x1_0000_0000

  /** C# `uint`. */
  newtype uint32 = x: int | 0 <= x < 0x1_0000_0000

  /** C# `int`. */
  newtype int32 = x: int | -0x8000_0000 <= x < 0x8000_0000

  /** C# `byte`. */
  newtype uint8 = x: int | 0 <= x < 0x100

  /** A C# array, whose length is an `int`. */
  type CsArray<T> = s: seq<T> | |s| < 0x8000_0000

  /** A nullable reference: `None` stands for C#'s `null`. */
  datatype Option<T> = None | Some(value: T)

  /** `x + 1` on a `uint`, which wraps around to 0 after 2^32 - 1. */
  function WrappingIncrement(x: uint32): (r: uint32)
    ensures x as int < TWO_TO_THE_32 - 1 ==> r as int == x as int + 1
    ensures x as int == TWO_TO_THE_32 - 1 ==> r == 0
  {
    ((x as int + 1) % TWO_TO_THE_32) as uint32
  }

  /** The `uint` values below n, built one element at a time. */
  ghost function UintsBelow(n: nat): (r: set<uint32>)
    requires n <= TWO_TO_THE_32
    decreases n
  {
    if n == 0 then {} else UintsBelow(n - 1) + {(n - 1) as uint32}
  }

  lemma {:induction false} UintsBelowShape(n: nat)
    requires n <= TWO_TO_THE_32
    ensures |UintsBelow(n)| == n
    ensures forall x: uint32 :: x as int < n <==> x in UintsBelow(n)
  {
    if n > 0 {
      UintsBelowShape(n - 1);
    }
  }

  lemma {:induction false} SubsetCardinality<T>(a: set<T>, b: set<T>)
    requires a <= b
    ensures |a| <= |b|
    decreases a
  {
    if a != {} {
      var x :| x in a;
      SubsetCardinality(a - {x}, b - {x});
    }
  }

  /** A set of `uint` values has at most 2^32 elements. */
  lemma Uint32SetCardinality(s: set<uint32>)
    ensures |s| <= TWO_TO_THE_32
  {
    UintsBelowShape(TWO_TO_THE_32);
    SubsetCardinality(s, UintsBelow(TWO_TO_THE_32));
  }
}
