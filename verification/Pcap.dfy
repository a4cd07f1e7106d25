/** The capture file: what the recorder writes and what the audit reads. */
module Pcap {
  import opened SpectrumTypes
  import opened Durations
  import LittleEndian
  import BigEndian

  const HEADER_BYTES := 24
  const RECORD_HEADER_BYTES := 16
  const RECEIVE_BUFFER_BYTES := 65_535
  const MAXIMUM_CAPTURE_BYTES := 67_108_864

  /** A frame offered to the writer, its size on the wire, and nanoseconds since 1970. */
  datatype Offer = Offer(frame: seq<byte>, wireSize: nat, timestamp: int)

  datatype Packet = Packet(seconds: u32, micros: u32, original: u32, frame: seq<byte>)

  // ----- What one frame becomes -----

  /** static_cast<std::uint32_t> */
  function AsU32(x: int): u32 {
    x % 0x1_0000_0000
  }

  function PacketOf(offer: Offer): Packet {
    var seconds := Truncated(offer.timestamp, NANOSECONDS);
    var micros := Truncated(offer.timestamp - seconds * NANOSECONDS, 1000);
    Packet(AsU32(seconds), AsU32(micros), if offer.wireSize < 0xffff_ffff then offer.wireSize else 0xffff_ffff, offer.frame)
  }

  /** The record keeps the time to the microsecond exactly from 1970 on, until the seconds
      no longer fit in 32 bits. */
  lemma TimeKept(offer: Offer)
    ensures
      var p := PacketOf(offer);
      p.seconds * 1_000_000 + p.micros == offer.timestamp / 1000
      <==> 0 <= offer.timestamp < 0x1_0000_0000 * NANOSECONDS
  {
    var (t, seconds) := (offer.timestamp, Truncated(offer.timestamp, NANOSECONDS));
    if t >= 0 {
      var rest := t - seconds * NANOSECONDS;
      assert 0 <= rest < NANOSECONDS;
      assert t / 1000 == seconds * 1_000_000 + rest / 1000;
      assert PacketOf(offer).micros == rest / 1000;
    } else {
      assert t / 1000 < 0;
    }
  }

  // ----- The file -----

  /** Numbers of given widths, one after the other. */
  datatype Layout = End | Field(value: nat, width: nat, rest: Layout)

  function Pack(l: Layout): seq<byte> {
    match l
    case End => []
    case Field(value, width, rest) => LittleEndian.Bytes(value, width) + Pack(rest)
  }

  const HEADER_FIELDS :=
    Field(0xa1b2_c3d4, 4, Field(2, 2, Field(4, 2, Field(0, 4, Field(0, 4, Field(RECEIVE_BUFFER_BYTES, 4, Field(1, 4, End)))))))

  function Width(l: Layout): nat {
    match l
    case End => 0
    case Field(_, width, rest) => width + Width(rest)
  }

  lemma {:induction false} PackWidth(l: Layout)
    ensures |Pack(l)| == Width(l)
  {
    if l.Field? {
      PackWidth(l.rest);
    }
  }

  function Header(): (b: seq<byte>)
    ensures |b| == HEADER_BYTES
  {
    PackWidth(HEADER_FIELDS);
    hide Pack;
    Pack(HEADER_FIELDS)
  }

  function RecordHeader(p: Packet): (b: seq<byte>)
    ensures |b| == RECORD_HEADER_BYTES
  {
    LittleEndian.Bytes(p.seconds, 4) + LittleEndian.Bytes(p.micros, 4) + LittleEndian.Bytes(|p.frame|, 4)
    + LittleEndian.Bytes(p.original, 4)
  }

  function Record(p: Packet): (b: seq<byte>)
    ensures |b| == RECORD_HEADER_BYTES + |p.frame|
  {
    RecordHeader(p) + p.frame
  }

  function Records(packets: seq<Packet>): seq<byte> {
    if packets == [] then [] else Record(packets[0]) + Records(packets[1..])
  }

  function File(packets: seq<Packet>): seq<byte> {
    Header() + Records(packets)
  }

  lemma {:induction false} RecordsSnoc(packets: seq<Packet>, p: Packet)
    ensures Records(packets + [p]) == Records(packets) + Record(p)
  {
    if packets == [] {
      assert [p][1..] == [] && packets + [p] == [p];
      assert Record(p) + [] == [] + Record(p);
    } else {
      RecordsSnoc(packets[1..], p);
      assert (packets + [p])[1..] == packets[1..] + [p];
      assert Record(packets[0]) + (Records(packets[1..]) + Record(p)) == Record(packets[0]) + Records(packets[1..]) + Record(p);
    }
  }

  // ----- Writing -----

  datatype Writing = Writing(bytes: nat, limitReached: bool, packets: seq<Packet>)

  const OPENED := Writing(HEADER_BYTES, false, [])

  predicate Fits(w: Writing, limit: nat, offer: Offer) {
    w.bytes + RECORD_HEADER_BYTES + |offer.frame| <= limit
  }

  function Write(w: Writing, limit: nat, offer: Offer): Writing {
    if w.limitReached then w
    else if !Fits(w, limit, offer) then w.(limitReached := true)
    else w.(bytes := w.bytes + RECORD_HEADER_BYTES + |offer.frame|, packets := w.packets + [PacketOf(offer)])
  }

  class PcapWriter {
    const byteLimit: nat
    var file: seq<byte>
    var bytes: nat
    var limitReached: bool
    ghost var packets: seq<Packet>

    ghost function State(): Writing
      reads this
    {
      Writing(bytes, limitReached, packets)
    }

    /** The file holds the header and one record for each accepted frame, and no more
        bytes than the limit. */
    ghost predicate Valid()
      reads this
    {
      file == File(packets) && bytes == |file| && bytes <= byteLimit
    }

    constructor (byteLimit: nat)
      requires byteLimit >= HEADER_BYTES + RECORD_HEADER_BYTES
      ensures Valid() && State() == OPENED && this.byteLimit == byteLimit
    {
      this.byteLimit := byteLimit;
      file, bytes, limitReached, packets := [], 0, false, [];
      new;
      WriteHeader();
      bytes := HEADER_BYTES;
      EmptyFile();
    }

    method WriteHeader()
      modifies this`file
      ensures file == old(file) + Header()
    {
      HeaderJoined(file);
      hide LittleEndian.Bytes, Header;
      WriteLittleEndian(0xa1b2_c3d4, 4);
      WriteLittleEndian(2, 2);
      WriteLittleEndian(4, 2);
      WriteLittleEndian(0, 4);
      WriteLittleEndian(0, 4);
      WriteLittleEndian(RECEIVE_BUFFER_BYTES, 4);
      WriteLittleEndian(1, 4);
    }

    method WriteLittleEndian(value: nat, width: nat)
      modifies this`file
      ensures file == old(file) + LittleEndian.Bytes(value, width)
    {
      var left := value;
      for index := 0 to width
        invariant file + LittleEndian.Bytes(left, width - index) == old(file) + LittleEndian.Bytes(value, width)
      {
        assert file + ([left % 0x100] + LittleEndian.Bytes(left / 0x100, width - index - 1))
            == file + [left % 0x100] + LittleEndian.Bytes(left / 0x100, width - index - 1);
        file := file + [left % 0x100];
        left := left / 0x100;
      }
    }

    method WriteFrame(offer: Offer) returns (accepted: bool)
      requires Valid()
      modifies this
      ensures Valid() && State() == Write(old(State()), byteLimit, offer)
      ensures accepted <==> !old(limitReached) && Fits(old(State()), byteLimit, offer)
    {
      hide File;
      if limitReached {
        return false;
      }
      var recordBytes := RECORD_HEADER_BYTES + |offer.frame|;
      if recordBytes > byteLimit - bytes {
        limitReached := true;
        return false;
      }
      var seconds := Truncated(offer.timestamp, NANOSECONDS);
      var micros := Truncated(offer.timestamp - seconds * NANOSECONDS, 1000);
      ghost var p := PacketOf(offer);
      WriteLittleEndian(AsU32(seconds), 4);
      WriteLittleEndian(AsU32(micros), 4);
      WriteLittleEndian(|offer.frame|, 4);
      WriteLittleEndian(if offer.wireSize < 0xffff_ffff then offer.wireSize else 0xffff_ffff, 4);
      file := file + offer.frame;
      bytes := bytes + recordBytes;
      Appended(old(file), file, packets, p);
      FileSnoc(packets, p);
      packets := packets + [p];
      return true;
    }
  }

  lemma Appended(before: seq<byte>, after: seq<byte>, packets: seq<Packet>, p: Packet)
    requires before == File(packets)
    requires after == before + LittleEndian.Bytes(p.seconds, 4) + LittleEndian.Bytes(p.micros, 4)
                      + LittleEndian.Bytes(|p.frame|, 4) + LittleEndian.Bytes(p.original, 4) + p.frame
    ensures after == File(packets + [p])
  {
    RecordsSnoc(packets, p);
    Joined(before, LittleEndian.Bytes(p.seconds, 4), LittleEndian.Bytes(p.micros, 4),
           LittleEndian.Bytes(|p.frame|, 4), LittleEndian.Bytes(p.original, 4), p.frame);
    hide LittleEndian.Bytes;
    assert after == before + Record(p);
    hide Record, Header;
    Regroup(Header(), Records(packets), Record(p));
  }

  lemma EmptyFile()
    ensures File([]) == Header() && [] + Header() == Header()
  {
    hide Header;
    assert Records([]) == [] && Header() + [] == Header();
  }

  lemma HeaderJoined(o: seq<byte>)
    ensures o + Header()
         == o + LittleEndian.Bytes(0xa1b2_c3d4, 4) + LittleEndian.Bytes(2, 2) + LittleEndian.Bytes(4, 2)
            + LittleEndian.Bytes(0, 4) + LittleEndian.Bytes(0, 4) + LittleEndian.Bytes(RECEIVE_BUFFER_BYTES, 4)
            + LittleEndian.Bytes(1, 4)
  {
    hide LittleEndian.Bytes;
    Nested(o, LittleEndian.Bytes(0xa1b2_c3d4, 4), LittleEndian.Bytes(2, 2), LittleEndian.Bytes(4, 2),
           LittleEndian.Bytes(0, 4), LittleEndian.Bytes(RECEIVE_BUFFER_BYTES, 4), LittleEndian.Bytes(1, 4));
  }

  lemma Nested(o: seq<byte>, a: seq<byte>, b: seq<byte>, c: seq<byte>, d: seq<byte>, f: seq<byte>, g: seq<byte>)
    ensures o + (a + (b + (c + (d + (d + (f + (g + []))))))) == o + a + b + c + d + d + f + g
  {
    Regroup(o, a, b + (c + (d + (d + (f + (g + []))))));
    Regroup(o + a, b, c + (d + (d + (f + (g + [])))));
    Regroup(o + a + b, c, d + (d + (f + (g + []))));
    Regroup(o + a + b + c, d, d + (f + (g + [])));
    Regroup(o + a + b + c + d, d, f + (g + []));
    Regroup(o + a + b + c + d + d, f, g + []);
    Regroup(o + a + b + c + d + d + f, g, []);
    NothingAdded(o + a + b + c + d + d + f + g);
  }

  lemma NothingAdded(s: seq<byte>)
    ensures s + [] == s
  {}

  lemma Joined(a: seq<byte>, w: seq<byte>, x: seq<byte>, y: seq<byte>, z: seq<byte>, f: seq<byte>)
    ensures a + w + x + y + z + f == a + (w + x + y + z + f)
  {}

  lemma Regroup(a: seq<byte>, b: seq<byte>, c: seq<byte>)
    ensures a + b + c == a + (b + c)
  {}

  function WriteAll(limit: nat, offers: seq<Offer>): Writing {
    if offers == [] then OPENED else Write(WriteAll(limit, offers[..|offers| - 1]), limit, offers[|offers| - 1])
  }

  function Packets(offers: seq<Offer>): (p: seq<Packet>)
    ensures |p| == |offers|
  {
    seq(|offers|, i requires 0 <= i < |offers| => PacketOf(offers[i]))
  }

  lemma PacketsSnoc(offers: seq<Offer>, n: nat)
    requires n < |offers|
    ensures Packets(offers[..n + 1]) == Packets(offers[..n]) + [PacketOf(offers[n])]
  {}

  /** However the frames come, the file never exceeds the limit and holds the longest
      prefix of them that fits; the first frame that does not fit ends the capture. */
  lemma {:induction false} CaptureIsPrefix(limit: nat, offers: seq<Offer>)
    requires limit >= HEADER_BYTES + RECORD_HEADER_BYTES
    ensures
      var w := WriteAll(limit, offers);
      var n := |w.packets|;
      && n <= |offers| && w.packets == Packets(offers[..n])
      && w.bytes == |File(w.packets)| <= limit
      && (w.limitReached <==> n < |offers|)
      && (n < |offers| ==> |File(Packets(offers[..n + 1]))| > limit)
  {
    hide Header, Record;
    HeaderSize();
    if offers == [] {
      assert OPENED.packets == Packets(offers[..0]);
      assert Header() + [] == Header();
    } else {
      var (before, offer) := (offers[..|offers| - 1], offers[|offers| - 1]);
      CaptureIsPrefix(limit, before);
      var w := WriteAll(limit, before);
      var n := |w.packets|;
      assert before[..n] == offers[..n];
      if n < |before| {
        assert before[..n + 1] == offers[..n + 1];
      } else {
        PacketsSnoc(offers, n);
        FileSnoc(w.packets, PacketOf(offer));
      }
    }
  }

  lemma HeaderSize()
    ensures |Header()| == HEADER_BYTES && |File([])| == HEADER_BYTES
  {
    hide Header;
  }

  lemma FileSnoc(packets: seq<Packet>, p: Packet)
    ensures |File(packets + [p])| == |File(packets)| + RECORD_HEADER_BYTES + |p.frame|
  {
    hide Header, Record;
    RecordsSnoc(packets, p);
  }

  // ----- Reading -----

  /** What the metrics file says about a capture. */
  datatype Manifest = Manifest(frames: nat, bytes: nat, ioErrors: nat, stopped: bool)

  /** A record the audit takes: microseconds in range, and no more bytes than there were. */
  predicate Auditable(p: Packet) {
    p.micros < 1_000_000 && |p.frame| <= 65_535 && |p.frame| <= p.original
  }

  /** The numbers are stored from `pos` on. */
  predicate Holds(data: seq<byte>, pos: nat, l: Layout)
    decreases l
  {
    match l
    case End => true
    case Field(value, width, rest) =>
      pos + width <= |data| && LittleEndian.Read(data, pos, width) == value && Holds(data, pos + width, rest)
  }

  predicate HeaderOk(data: seq<byte>) {
    |data| >= HEADER_BYTES && Holds(data, 0, HEADER_FIELDS)
  }

  datatype Fields = Fields(seconds: nat, micros: nat, included: nat, original: nat)

  function FieldsAt(data: seq<byte>, pos: nat): Fields
    requires pos + RECORD_HEADER_BYTES <= |data|
  {
    Fields(LittleEndian.Read(data, pos, 4), LittleEndian.Read(data, pos + 4, 4),
           LittleEndian.Read(data, pos + 8, 4), LittleEndian.Read(data, pos + 12, 4))
  }

  predicate FieldsOk(f: Fields, pos: nat, size: nat) {
    f.micros < 1_000_000 && f.included <= 65_535 && f.included <= f.original && pos + RECORD_HEADER_BYTES + f.included <= size
  }

  datatype Entry = Entry(seconds: nat, micros: nat, original: nat, frame: seq<byte>)

  /** The records from `pos` on; None stands for a failed assertion. */
  function Parse(data: seq<byte>, pos: nat): Option<seq<Entry>>
    requires pos <= |data|
    decreases |data| - pos
  {
    if pos == |data| then Some([])
    else if pos + RECORD_HEADER_BYTES > |data| then None
    else
      var f := FieldsAt(data, pos);
      if !FieldsOk(f, pos, |data|) then None
      else
        var start := pos + RECORD_HEADER_BYTES;
        var rest := Parse(data, start + f.included);
        if rest.None? then None
        else Some([Entry(f.seconds, f.micros, f.original, data[start..start + f.included])] + rest.value)
  }

  /** The number of records, the time of the first and the time of the last. */
  function Report(entries: seq<Entry>): (nat, Option<(nat, nat)>, (nat, nat)) {
    if entries == [] then (0, None, (0, 0))
    else
      var last := entries[|entries| - 1];
      (|entries|, Some((entries[0].seconds, entries[0].micros)), (last.seconds, last.micros))
  }

  /** The walk over the records; None is a failed assertion. */
  method Walk(data: seq<byte>) returns (r: Option<(nat, Option<(nat, nat)>, (nat, nat))>)
    requires |data| >= HEADER_BYTES
    ensures
      var entries := Parse(data, HEADER_BYTES);
      r == if entries.None? then None else Some(Report(entries.value))
  {
    hide FieldsAt, FieldsOk;
    var pos, count := HEADER_BYTES, 0;
    var first: Option<(nat, nat)> := None;
    var last := (0, 0);
    ghost var seen: seq<Entry> := [];
    PrependNone(Parse(data, HEADER_BYTES));
    while pos < |data|
      invariant HEADER_BYTES <= pos <= |data|
      invariant Parse(data, HEADER_BYTES) == Prepend(seen, Parse(data, pos))
      invariant (count, first, last) == Report(seen)
      decreases |data| - pos
    {
      if pos + RECORD_HEADER_BYTES > |data| {
        return None;
      }
      var f := FieldsAt(data, pos);
      if !FieldsOk(f, pos, |data|) {
        return None;
      }
      var start := pos + RECORD_HEADER_BYTES;
      assert start + f.included <= |data| by { FieldsFit(f, pos, |data|); }
      ghost var entry := Entry(f.seconds, f.micros, f.original, data[start..start + f.included]);
      PrependOne(seen, entry, Parse(data, start + f.included));
      if first.None? {
        first := Some((f.seconds, f.micros));
      }
      last := (f.seconds, f.micros);
      seen := seen + [entry];
      pos := start + f.included;
      count := count + 1;
    }
    assert seen + [] == seen;
    return Some((count, first, last));
  }

  lemma FieldsFit(f: Fields, pos: nat, size: nat)
    requires FieldsOk(f, pos, size)
    ensures pos + RECORD_HEADER_BYTES + f.included <= size
  {}

  /** The whole audit, against what the recorder says of the capture. */
  method Audit(data: seq<byte>, m: Manifest) returns (passed: bool)
    ensures passed <==>
      && HeaderOk(data) && Parse(data, HEADER_BYTES).Some?
      && 0 < |Parse(data, HEADER_BYTES).value| == m.frames
      && |data| == m.bytes <= MAXIMUM_CAPTURE_BYTES && m.ioErrors == 0 && m.stopped
  {
    if !HeaderOk(data) {
      return false;
    }
    var report := Walk(data);
    return report.Some? && report.value.0 > 0 && report.value.0 == m.frames
      && |data| == m.bytes && |data| <= MAXIMUM_CAPTURE_BYTES && m.ioErrors == 0 && m.stopped;
  }

  function Prepend(seen: seq<Entry>, rest: Option<seq<Entry>>): Option<seq<Entry>> {
    if rest.None? then None else Some(seen + rest.value)
  }

  lemma PrependNone(rest: Option<seq<Entry>>)
    ensures Prepend([], rest) == rest
  {
    if rest.Some? {
      assert [] + rest.value == rest.value;
    }
  }

  lemma PrependOne(seen: seq<Entry>, entry: Entry, rest: Option<seq<Entry>>)
    ensures Prepend(seen, Prepend([entry], rest)) == Prepend(seen + [entry], rest)
  {
    if rest.Some? {
      assert seen + ([entry] + rest.value) == seen + [entry] + rest.value;
    }
  }

  // ----- The audit reads what the recorder wrote -----

  function EntryOf(p: Packet): Entry {
    Entry(p.seconds, p.micros, p.original, p.frame)
  }

  function Entries(packets: seq<Packet>): (e: seq<Entry>)
    ensures |e| == |packets|
  {
    seq(|packets|, i requires 0 <= i < |packets| => EntryOf(packets[i]))
  }

  /** A record lies in the file at `pos`. */
  predicate RecordAt(data: seq<byte>, pos: nat, p: Packet) {
    pos + |Record(p)| <= |data| && data[pos..pos + |Record(p)|] == Record(p)
  }

  lemma RecordParts(w: seq<byte>, x: seq<byte>, y: seq<byte>, z: seq<byte>, f: seq<byte>)
    requires |w| == |x| == |y| == |z| == 4
    ensures
      var r := w + x + y + z + f;
      r[0..4] == w && r[4..8] == x && r[8..12] == y && r[12..16] == z && r[16..16 + |f|] == f
  {}

  lemma Within(data: seq<byte>, pos: nat, size: nat, from: nat, to: nat)
    requires pos + size <= |data| && from <= to <= size
    ensures data[pos..pos + size][from..to] == data[pos + from..pos + to]
  {
    var (s, t) := (data[pos..pos + size][from..to], data[pos + from..pos + to]);
    forall k | 0 <= k < to - from ensures s[k] == t[k] {
      assert s[k] == data[pos..pos + size][from + k];
    }
  }

  lemma FieldsRead(data: seq<byte>, pos: nat, p: Packet)
    requires RecordAt(data, pos, p) && |p.frame| < 0x1_0000_0000
    ensures
      var start := pos + RECORD_HEADER_BYTES;
      && start + |p.frame| <= |data|
      && FieldsAt(data, pos) == Fields(p.seconds, p.micros, |p.frame|, p.original)
      && data[start..start + |p.frame|] == p.frame
  {
    var size := |Record(p)|;
    BigEndian.Limits();
    LittleEndian.ValueOfBytes(p.seconds, 4);
    LittleEndian.ValueOfBytes(p.micros, 4);
    LittleEndian.ValueOfBytes(|p.frame|, 4);
    LittleEndian.ValueOfBytes(p.original, 4);
    RecordParts(LittleEndian.Bytes(p.seconds, 4), LittleEndian.Bytes(p.micros, 4),
                LittleEndian.Bytes(|p.frame|, 4), LittleEndian.Bytes(p.original, 4), p.frame);
    Within(data, pos, size, 0, 4);
    Within(data, pos, size, 4, 8);
    Within(data, pos, size, 8, 12);
    Within(data, pos, size, 12, 16);
    Within(data, pos, size, 16, size);
    hide LittleEndian.Bytes, LittleEndian.Value;
  }

  /** A record in the file is read as it was written, if it is taken at all. */
  lemma ReadOne(data: seq<byte>, pos: nat, p: Packet)
    requires RecordAt(data, pos, p) && |p.frame| < 0x1_0000_0000
    ensures pos + |Record(p)| <= |data|
    ensures Parse(data, pos) == if Auditable(p) then Prepend([EntryOf(p)], Parse(data, pos + |Record(p)|)) else None
  {
    FieldsRead(data, pos, p);
    hide Record, FieldsAt;
  }

  /** Parsing gives the records back exactly when each of them is auditable. */
  lemma {:induction false} ParseRecords(data: seq<byte>, pos: nat, packets: seq<Packet>)
    requires pos <= |data| && data[pos..] == Records(packets)
    requires forall i :: 0 <= i < |packets| ==> |packets[i].frame| < 0x1_0000_0000
    ensures Parse(data, pos)
         == if forall i :: 0 <= i < |packets| ==> Auditable(packets[i]) then Some(Entries(packets)) else None
    decreases |packets|
  {
    hide Record, FieldsAt;
    if packets == [] {
      assert Entries([]) == [];
    } else {
      var (p, tail) := (packets[0], packets[1..]);
      FirstRecord(data, pos, packets);
      ReadOne(data, pos, p);
      ParseRecords(data, pos + |Record(p)|, tail);
      AllAuditable(packets);
      EntriesCons(packets);
      hide *;
    }
  }

  lemma FirstRecord(data: seq<byte>, pos: nat, packets: seq<Packet>)
    requires pos <= |data| && data[pos..] == Records(packets) && packets != []
    ensures RecordAt(data, pos, packets[0]) && pos + |Record(packets[0])| <= |data|
    ensures data[pos + |Record(packets[0])|..] == Records(packets[1..])
  {
    var size := |Record(packets[0])|;
    hide Record;
    assert |data| - pos == size + |Records(packets[1..])|;
    assert data[pos..][..size] == data[pos..pos + size] && data[pos..][size..] == data[pos + size..];
  }

  lemma AllAuditable(packets: seq<Packet>)
    requires packets != []
    ensures (forall i :: 0 <= i < |packets| ==> Auditable(packets[i]))
       <==> Auditable(packets[0]) && forall i :: 0 <= i < |packets[1..]| ==> Auditable(packets[1..][i])
  {
    hide Auditable;
    forall i | 1 <= i < |packets| ensures packets[i] == packets[1..][i - 1] {
    }
  }

  lemma EntriesCons(packets: seq<Packet>)
    requires packets != []
    ensures Prepend([EntryOf(packets[0])], Some(Entries(packets[1..]))) == Some(Entries(packets))
    ensures Prepend([EntryOf(packets[0])], None) == None
  {
    assert Entries(packets) == [EntryOf(packets[0])] + Entries(packets[1..]);
  }

  /** Every number fits its width. */
  predicate InRange(l: Layout) {
    match l
    case End => true
    case Field(value, width, rest) => value < BigEndian.Limit(width) && InRange(rest)
  }

  lemma {:induction false} PackHolds(data: seq<byte>, pos: nat, l: Layout)
    requires pos <= |data| && Pack(l) <= data[pos..] && InRange(l)
    ensures Holds(data, pos, l)
    decreases l
  {
    if l.Field? {
      var bytes := LittleEndian.Bytes(l.value, l.width);
      LittleEndian.ValueOfBytes(l.value, l.width);
      hide LittleEndian.Bytes, LittleEndian.Value;
      assert data[pos..][..l.width] == bytes == data[pos..pos + l.width];
      assert data[pos..][l.width..] == data[pos + l.width..];
      PackHolds(data, pos + l.width, l.rest);
    }
  }

  lemma HeaderReads(packets: seq<Packet>)
    ensures HeaderOk(File(packets)) && |Header()| == HEADER_BYTES
  {
    var data := File(packets);
    BigEndian.Limits();
    hide BigEndian.Limit, Pack, Holds;
    assert data[0..] == data;
    PackHolds(data, 0, HEADER_FIELDS);
  }

  /** What the caller of the writer must provide for the audit to accept a frame. */
  predicate Faithful(offer: Offer) {
    && |offer.frame| <= 65_535 && |offer.frame| <= offer.wireSize
    && (offer.timestamp >= 0 || (0 - offer.timestamp) % NANOSECONDS < 1000)
  }

  lemma FaithfulAuditable(offer: Offer)
    ensures Auditable(PacketOf(offer)) <==> Faithful(offer)
  {
    var (t, seconds) := (offer.timestamp, Truncated(offer.timestamp, NANOSECONDS));
    var rest := t - seconds * NANOSECONDS;
    if t >= 0 {
      assert 0 <= rest < NANOSECONDS;
    } else {
      assert 0 - rest == (0 - t) % NANOSECONDS;
    }
  }

  /** Whatever is offered, the audit reads the file back as exactly the accepted frames in
      order when each of them is faithful, and rejects it when one is not. */
  lemma AuditReadsCapture(limit: nat, offers: seq<Offer>)
    requires HEADER_BYTES + RECORD_HEADER_BYTES <= limit < 0x1_0000_0000
    ensures
      var w := WriteAll(limit, offers);
      var n := |w.packets|;
      && n <= |offers| && HeaderOk(File(w.packets))
      && Parse(File(w.packets), HEADER_BYTES)
         == if forall i :: 0 <= i < n ==> Faithful(offers[i]) then Some(Entries(Packets(offers[..n]))) else None
  {
    var w := WriteAll(limit, offers);
    var n := |w.packets|;
    hide Record;
    CaptureIsPrefix(limit, offers);
    HeaderReads(w.packets);
    forall i | 0 <= i < n
      ensures |w.packets[i].frame| < 0x1_0000_0000 && (Auditable(w.packets[i]) <==> Faithful(offers[i]))
    {
      FrameInFile(w.packets, i);
      FaithfulAuditable(offers[i]);
      assert w.packets[i] == PacketOf(offers[i]);
    }
    hide Auditable, Faithful, HeaderOk, Header;
    assert File(w.packets)[HEADER_BYTES..] == Records(w.packets);
    ParseRecords(File(w.packets), HEADER_BYTES, w.packets);
  }

  lemma {:induction false} FrameInFile(packets: seq<Packet>, i: nat)
    requires i < |packets|
    ensures |packets[i].frame| <= |Records(packets)| <= |File(packets)|
  {
    if i > 0 {
      FrameInFile(packets[1..], i - 1);
    }
  }
}
