/**
  The entity model of a pinata loot drop and the fixed layout its `Write`
  puts on the wire: CreatureId in 18 bits, ItemId and ItemCount in the
  writer's default `uint` width, LootType in 4 bits, in that order.
*/
module PinataLoot {
  import opened Base
  import opened PacketWriter

  const CREATURE_ID_BITS: nat := 18
  const LOOT_TYPE_BITS: nat := 4

  /** The four properties of the model, as a value. */
  datatype PinataLootFields = PinataLootFields(
    creatureId: uint32, itemId: uint32, itemCount: uint32, lootType: uint8)

  /** The fields `Write` emits for `m` when the default `uint` width is `w`. */
  function Encode(m: PinataLootFields, w: nat): (log: seq<Field>)
    ensures |log| == 4
    ensures log[0] == Field(m.creatureId as nat, CREATURE_ID_BITS)
    ensures log[1] == Field(m.itemId as nat, w)
    ensures log[2] == Field(m.itemCount as nat, w)
    ensures log[3] == Field(m.lootType as nat, LOOT_TYPE_BITS)
    ensures BitLength(log) == CREATURE_ID_BITS + 2 * w + LOOT_TYPE_BITS
    ensures Decode(log, w) == Some(m)
  {
    var a, b, c, d := Field(m.creatureId as nat, CREATURE_ID_BITS), Field(m.itemId as nat, w),
                      Field(m.itemCount as nat, w), Field(m.lootType as nat, LOOT_TYPE_BITS);
    assert [a][..0] == [];
    assert BitLength([a]) == a.width;
    assert [a, b][..1] == [a];
    assert BitLength([a, b]) == a.width + b.width;
    assert [a, b, c][..2] == [a, b];
    assert BitLength([a, b, c]) == a.width + b.width + c.width;
    assert [a, b, c, d][..3] == [a, b, c];
    [a, b, c, d]
  }

  /** Reads the four fields back in the order `Write` emits them. */
  function Decode(log: seq<Field>, w: nat): (r: Option<PinataLootFields>)
  {
    if |log| == 4
       && log[0].width == CREATURE_ID_BITS && log[0].value < TWO_TO_THE_32
       && log[1].width == w && log[1].value < TWO_TO_THE_32
       && log[2].width == w && log[2].value < TWO_TO_THE_32
       && log[3].width == LOOT_TYPE_BITS && log[3].value < 0x100
    then Some(PinataLootFields(log[0].value as uint32, log[1].value as uint32,
                               log[2].value as uint32, log[3].value as uint8))
    else None
  }

  /** Decoding accepts only logs that some model encodes to. */
  lemma DecodeOnlyEncodings(log: seq<Field>, w: nat)
    requires Decode(log, w).Some?
    ensures Encode(Decode(log, w).value, w) == log
  {
  }

  class PinataLootEntityModel {
    var creatureId: uint32
    var itemId: uint32
    var itemCount: uint32
    var lootType: uint8

    constructor (m: PinataLootFields)
      ensures Fields() == m
    {
      creatureId, itemId, itemCount, lootType := m.creatureId, m.itemId, m.itemCount, m.lootType;
    }

    function Fields(): PinataLootFields
      reads this
    {
      PinataLootFields(creatureId, itemId, itemCount, lootType)
    }

    /** Appends the model's four fields to the writer and changes nothing else. */
    method Write(writer: GamePacketWriter)
      modifies writer
      ensures writer.log == old(writer.log) + Encode(Fields(), writer.defaultWidth)
      ensures Decode(writer.log[|old(writer.log)|..], writer.defaultWidth) == Some(Fields())
      ensures BitLength(writer.log) == BitLength(old(writer.log)) + CREATURE_ID_BITS + 2 * writer.defaultWidth + LOOT_TYPE_BITS
    {
      writer.Write(creatureId as nat, CREATURE_ID_BITS);
      writer.WriteDefault(itemId as nat);
      writer.WriteDefault(itemCount as nat);
      writer.Write(lootType as nat, LOOT_TYPE_BITS);
      var emitted := Encode(Fields(), writer.defaultWidth);
      assert writer.log == old(writer.log) + emitted;
      assert writer.log[|old(writer.log)|..] == emitted;
      BitLengthAppend(old(writer.log), emitted);
    }
  }
}
