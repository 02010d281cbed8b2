/**
  The server message that unlocks a vanity pet: tagged with opcode
  `ServerUnlockVanityPet` (0x01AE) and carrying one field, Spell4Id, in 18 bits.
*/
module VanityPet {
  import opened Base
  import opened PacketWriter

  const SERVER_UNLOCK_VANITY_PET_OPCODE: nat := 0x01AE
  const SPELL4_ID_BITS: nat := 18

  /** The fields `Write` emits for a message carrying `spell4Id`. */
  function Encode(spell4Id: uint32): (log: seq<Field>)
    ensures log == [Field(spell4Id as nat, SPELL4_ID_BITS)]
    ensures BitLength(log) == SPELL4_ID_BITS
    ensures Decode(log) == Some(spell4Id)
  {
    var log := [Field(spell4Id as nat, SPELL4_ID_BITS)];
    assert log[..0] == [];
    log
  }

  /** Reads the single 18-bit field back. */
  function Decode(log: seq<Field>): (r: Option<uint32>)
  {
    if |log| == 1 && log[0].width == SPELL4_ID_BITS && log[0].value < TWO_TO_THE_32
    then Some(log[0].value as uint32)
    else None
  }

  /** Decoding accepts only logs that some message encodes to. */
  lemma DecodeOnlyEncodings(log: seq<Field>)
    requires Decode(log).Some?
    ensures Encode(Decode(log).value) == log
  {
  }

  class ServerUnlockVanityPet {
    /** The opcode the message is registered under. */
    const opcode: nat
    var spell4Id: uint32

    constructor (spell4Id: uint32)
      ensures opcode == SERVER_UNLOCK_VANITY_PET_OPCODE && this.spell4Id == spell4Id
    {
      opcode := SERVER_UNLOCK_VANITY_PET_OPCODE;
      this.spell4Id := spell4Id;
    }

    /** Appends Spell4Id in 18 bits and changes nothing else. */
    method Write(writer: GamePacketWriter)
      modifies writer
      ensures writer.log == old(writer.log) + Encode(spell4Id)
      ensures Decode(writer.log[|old(writer.log)|..]) == Some(spell4Id)
    {
      writer.Write(spell4Id as nat, SPELL4_ID_BITS);
      assert writer.log[|old(writer.log)|..] == Encode(spell4Id);
    }
  }
}
