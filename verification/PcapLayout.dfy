/** Where each number stands in a capture file. */
module PcapLayout {
  import opened SpectrumTypes
  import opened Pcap
  import LittleEndian
  import BigEndian

  /** The 24 bytes every capture begins with: microsecond magic, version 2.4, no offset and no
      accuracy, snapshots of up to 65535 bytes, Ethernet. */
  const FIRST_BYTES: seq<byte> :=
    [0xd4, 0xc3, 0xb2, 0xa1, 2, 0, 4, 0, 0, 0, 0, 0, 0, 0, 0, 0, 0xff, 0xff, 0, 0, 1, 0, 0, 0]

  lemma TwoBytes(value: nat)
    ensures LittleEndian.Bytes(value, 2) == [value % 0x100, value / 0x100 % 0x100]
  {}

  lemma FourBytes(value: nat)
    ensures LittleEndian.Bytes(value, 4)
         == [value % 0x100, value / 0x100 % 0x100, value / 0x1_0000 % 0x100, value / 0x100_0000 % 0x100]
  {
    TwoBytes(value / 0x1_0000);
    assert LittleEndian.Bytes(value, 4)
        == [value % 0x100] + ([value / 0x100 % 0x100] + LittleEndian.Bytes(value / 0x100 / 0x100, 2));
    assert value / 0x100 / 0x100 == value / 0x1_0000 && value / 0x1_0000 / 0x100 == value / 0x100_0000;
  }

  lemma HeaderNumbers()
    ensures LittleEndian.Bytes(0xa1b2_c3d4, 4) == [0xd4, 0xc3, 0xb2, 0xa1]
    ensures LittleEndian.Bytes(2, 2) == [2, 0] && LittleEndian.Bytes(4, 2) == [4, 0]
    ensures LittleEndian.Bytes(0, 4) == [0, 0, 0, 0] && LittleEndian.Bytes(1, 4) == [1, 0, 0, 0]
    ensures LittleEndian.Bytes(RECEIVE_BUFFER_BYTES, 4) == [0xff, 0xff, 0, 0]
  {
    FourBytes(0xa1b2_c3d4);
    TwoBytes(2);
    TwoBytes(4);
    FourBytes(0);
    FourBytes(RECEIVE_BUFFER_BYTES);
    FourBytes(1);
    hide LittleEndian.Bytes;
  }

  lemma HeaderIs()
    ensures Header() == FIRST_BYTES
  {
    hide LittleEndian.Bytes, Header, Pack, HEADER_FIELDS, RECEIVE_BUFFER_BYTES;
    HeaderNumbers();
    HeaderJoined([]);
    NoneBefore(Header());
    FirstThree();
    LastFour();
    SevenTogether([0xd4, 0xc3, 0xb2, 0xa1], [2, 0], [4, 0], [0, 0, 0, 0], [0xff, 0xff, 0, 0], [1, 0, 0, 0]);
    FirstBytes();
    hide FIRST_BYTES;
  }

  const FIRST_HALF: seq<byte> := [0xd4, 0xc3, 0xb2, 0xa1, 2, 0, 4, 0]
  const SECOND_HALF: seq<byte> := [0, 0, 0, 0, 0, 0, 0, 0, 0xff, 0xff, 0, 0, 1, 0, 0, 0]

  lemma FirstThree()
    ensures [0xd4, 0xc3, 0xb2, 0xa1] + [2, 0] + [4, 0] == FIRST_HALF
  {}

  lemma LastFour()
    ensures [0, 0, 0, 0] + [0, 0, 0, 0] + [0xff, 0xff, 0, 0] + [1, 0, 0, 0] == SECOND_HALF
  {}

  lemma FirstBytes()
    ensures FIRST_BYTES == FIRST_HALF + SECOND_HALF
  {}

  lemma SevenTogether(a: seq<byte>, b: seq<byte>, c: seq<byte>, d: seq<byte>, e: seq<byte>, f: seq<byte>)
    ensures [] + a + b + c + d + d + e + f == (a + b + c) + (d + d + e + f)
  {}

  lemma NoneBefore(b: seq<byte>)
    ensures [] + b == b
  {}

  lemma {:induction false} RecordsApart(packets: seq<Packet>, k: nat)
    requires k < |packets|
    ensures Records(packets) == Records(packets[..k]) + Record(packets[k]) + Records(packets[k + 1..])
  {
    hide Record;
    if k == 0 {
      assert packets[..0] == [];
      assert Records(packets) == [] + Record(packets[0]) + Records(packets[1..]);
    } else {
      RecordsApart(packets[1..], k - 1);
      assert packets[..k][0] == packets[0] && packets[..k][1..] == packets[1..][..k - 1];
      assert packets[1..][k..] == packets[k + 1..];
      FourTogether(Record(packets[0]), Records(packets[1..][..k - 1]), Record(packets[k]), Records(packets[k + 1..]));
    }
  }

  lemma FourTogether(a: seq<byte>, b: seq<byte>, c: seq<byte>, d: seq<byte>)
    ensures a + (b + c + d) == a + b + c + d
  {}

  lemma SliceAt(a: seq<byte>, b: seq<byte>, c: seq<byte>)
    ensures (a + b + c)[|a|..|a| + |b|] == b
  {}

  /** Seconds, microseconds, bytes kept and bytes on the wire in four bytes each, and the frame. */
  predicate StandsAt(data: seq<byte>, pos: nat, p: Packet) {
    && pos + 16 + |p.frame| <= |data|
    && LittleEndian.Read(data, pos, 4) == p.seconds && LittleEndian.Read(data, pos + 4, 4) == p.micros
    && LittleEndian.Read(data, pos + 8, 4) == |p.frame| && LittleEndian.Read(data, pos + 12, 4) == p.original
    && data[pos + 16..pos + 16 + |p.frame|] == p.frame
  }

  /** Every capture begins with these bytes, and each record follows the ones before it. */
  lemma CaptureLaidOut(packets: seq<Packet>, k: nat)
    requires k < |packets| && |packets[k].frame| < 0x1_0000_0000
    ensures FIRST_BYTES <= File(packets)
    ensures StandsAt(File(packets), |File(packets[..k])|, packets[k])
  {
    hide *;
    var (p, before, after) := (packets[k], Header() + Records(packets[..k]), Records(packets[k + 1..]));
    HeaderIs();
    RecordsApart(packets, k);
    FileApart(packets, k);
    RecordStands(before, p, after);
  }

  lemma FileApart(packets: seq<Packet>, k: nat)
    requires k < |packets|
    requires Records(packets) == Records(packets[..k]) + Record(packets[k]) + Records(packets[k + 1..])
    ensures File(packets[..k]) == Header() + Records(packets[..k])
    ensures File(packets) == Header() + Records(packets[..k]) + Record(packets[k]) + Records(packets[k + 1..])
    ensures Header() <= File(packets)
  {
    hide Header, Records, Record;
    FourTogether(Header(), Records(packets[..k]), Record(packets[k]), Records(packets[k + 1..]));
  }

  lemma RecordStands(before: seq<byte>, p: Packet, after: seq<byte>)
    requires |p.frame| < 0x1_0000_0000
    ensures StandsAt(before + Record(p) + after, |before|, p)
  {
    var (data, pos) := (before + Record(p) + after, |before|);
    BigEndian.Limits();
    var (s, m, i, o) := (LittleEndian.Bytes(p.seconds, 4), LittleEndian.Bytes(p.micros, 4),
                         LittleEndian.Bytes(|p.frame|, 4), LittleEndian.Bytes(p.original, 4));
    LittleEndian.ValueOfBytes(p.seconds, 4);
    LittleEndian.ValueOfBytes(p.micros, 4);
    LittleEndian.ValueOfBytes(|p.frame|, 4);
    LittleEndian.ValueOfBytes(p.original, 4);
    hide LittleEndian.Bytes, LittleEndian.Value;
    assert data == before + s + m + i + o + p.frame + after;
    assert data[pos..pos + 4] == s && data[pos + 4..pos + 8] == m;
    assert data[pos + 8..pos + 12] == i && data[pos + 12..pos + 16] == o;
  }
}
