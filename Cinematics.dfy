/**
  The process-wide cinematic id allocator: a `uint` counter that starts at
  1073743000 and is post-incremented each time the next id is read.
*/
module Cinematics {
  import opened Base

  const FIRST_CINEMATIC_ID: uint32 := 1073743000

  /** The id handed out by the `k`-th read of the counter (counting from 0). */
  function IdAt(k: nat): (id: uint32)
  {
    ((FIRST_CINEMATIC_ID as int + k) % TWO_TO_THE_32) as uint32
  }

  /** The first read yields the initial value. */
  lemma FirstIdIsInitialValue()
    ensures IdAt(0) == FIRST_CINEMATIC_ID
  {
  }

  /** Each read yields its predecessor's value plus one, wrapping at 2^32. */
  lemma {:induction false} ConsecutiveIds(k: nat)
    ensures IdAt(k + 1) == WrappingIncrement(IdAt(k))
  {
    var a := FIRST_CINEMATIC_ID as int + k;
    var q := a / TWO_TO_THE_32;
    assert a == q * TWO_TO_THE_32 + a % TWO_TO_THE_32;
    if a % TWO_TO_THE_32 == TWO_TO_THE_32 - 1 {
      assert a + 1 == (q + 1) * TWO_TO_THE_32;
    } else {
      assert a + 1 == q * TWO_TO_THE_32 + (a % TWO_TO_THE_32 + 1);
    }
  }

  /** Reads fewer than 2^32 apart never yield the same id. */
  lemma {:induction false} IdsDistinct(i: nat, j: nat)
    requires i < j < i + TWO_TO_THE_32
    ensures IdAt(i) != IdAt(j)
  {
    var a := FIRST_CINEMATIC_ID as int + i;
    var b := FIRST_CINEMATIC_ID as int + j;
    var qa, qb := a / TWO_TO_THE_32, b / TWO_TO_THE_32;
    assert a == qa * TWO_TO_THE_32 + a % TWO_TO_THE_32;
    assert b == qb * TWO_TO_THE_32 + b % TWO_TO_THE_32;
    if a % TWO_TO_THE_32 == b % TWO_TO_THE_32 {
      assert false;
    }
  }

  class GlobalCinematicManager {
    /** Id to be assigned to the next cinematic. */
    var nextCinematicId: uint32
    /** How many ids have been handed out so far. */
    ghost var issued: nat

    ghost predicate Valid()
      reads this
    {
      nextCinematicId == IdAt(issued)
    }

    constructor ()
      ensures Valid() && issued == 0
      ensures nextCinematicId == FIRST_CINEMATIC_ID
    {
      nextCinematicId := FIRST_CINEMATIC_ID;
      issued := 0;
    }

    /** Reading `NextCinematicId`: returns the counter, then increments it. */
    method NextCinematicId() returns (id: uint32)
      requires Valid()
      modifies this
      ensures Valid() && issued == old(issued) + 1
      ensures id == old(nextCinematicId) == IdAt(old(issued))
      ensures nextCinematicId == WrappingIncrement(id)
    {
      id := nextCinematicId;
      ConsecutiveIds(issued);
      nextCinematicId := WrappingIncrement(nextCinematicId);
      issued := issued + 1;
    }

    /** Deliberately does nothing. */
    method Initialise()
      requires Valid()
      ensures Valid()
      ensures unchanged(this)
    {
    }
  }
}
