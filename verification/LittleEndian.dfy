/** Little-endian integers, as the capture file stores them. */
module LittleEndian {
  import opened SpectrumTypes
  import BigEndian

  /** The low `count` bytes of value, least significant first. */
  function Bytes(value: nat, count: nat): (b: seq<byte>)
    ensures |b| == count
  {
    if count == 0 then [] else [value % 0x100] + Bytes(value / 0x100, count - 1)
  }

  function Value(b: seq<byte>): nat {
    if b == [] then 0 else b[0] + 0x100 * Value(b[1..])
  }

  lemma {:induction false} ValueOfBytes(value: nat, count: nat)
    requires value < BigEndian.Limit(count)
    ensures Value(Bytes(value, count)) == value
  {
    if count > 0 {
      ValueOfBytes(value / 0x100, count - 1);
      assert Bytes(value, count)[1..] == Bytes(value / 0x100, count - 1);
    }
  }

  /** The number stored at `pos`. */
  function Read(data: seq<byte>, pos: nat, width: nat): nat
    requires pos + width <= |data|
  {
    Value(data[pos..pos + width])
  }
}
