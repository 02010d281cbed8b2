/**
  The bit-packing writer as the message models see it: an append-only log of
  (value, width) fields. How the writer lays the bits out, and whether it
  truncates a value wider than its field, belongs to the writer itself and is
  not part of this model.
*/
module PacketWriter {

  /** One call to the writer: a value written in `width` bits. */
  datatype Field = Field(value: nat, width: nat)

  /** Total number of bits a log occupies. */
  function BitLength(log: seq<Field>): nat
  {
    if log == [] then 0 else BitLength(log[..|log| - 1]) + log[|log| - 1].width
  }

  lemma {:induction false} BitLengthAppend(a: seq<Field>, b: seq<Field>)
    ensures BitLength(a + b) == BitLength(a) + BitLength(b)
    decreases |b|
  {
    if b == [] {
      assert a + b == a;
    } else {
      var last := |b| - 1;
      assert (a + b)[..|a + b| - 1] == a + b[..last];
      BitLengthAppend(a, b[..last]);
    }
  }

  class GamePacketWriter {
    /** Width used by `Write(uint)` when no width is given. */
    const defaultWidth: nat
    /** Every field written so far, oldest first. */
    var log: seq<Field>

    constructor (defaultWidth: nat)
      ensures this.defaultWidth == defaultWidth && log == []
    {
      this.defaultWidth := defaultWidth;
      log := [];
    }

    /** `Write(value, bits)`. */
    method Write(value: nat, width: nat)
      modifies this
      ensures log == old(log) + [Field(value, width)]
    {
      log := log + [Field(value, width)];
    }

    /** `Write(value)` with the writer's default width. */
    method WriteDefault(value: nat)
      modifies this
      ensures log == old(log) + [Field(value, defaultWidth)]
    {
      log := log + [Field(value, defaultWidth)];
    }
  }
}
