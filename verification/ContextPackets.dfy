/** Which context packets the processor accepts, said without its reading order. */
module ContextPackets {
  import opened SpectrumTypes
  import opened SampleTime
  import opened ProcessorSpec

  /** Four settings, whose frequencies are whole numbers of hertz. */
  datatype Values = Values(center: u64, rate: u32, bandwidth: i64, gain: (i16, i16))

  function SettingsOf(v: Values): Settings {
    Settings(Some(v.center), Some(v.rate), Some(v.bandwidth), Some(v.gain))
  }

  /** Four fields, one for each setting, in any order. */
  predicate Carries(fields: seq<ContextField>, v: Values) {
    && |fields| == 4
    && v.center * HERTZ < 0x8000_0000_0000_0000 && v.rate > 0
    && Frequency(v.center * HERTZ) in fields && SampleRate(v.rate * HERTZ) in fields
    && Bandwidth(v.bandwidth) in fields && Gain(v.gain.0, v.gain.1) in fields
  }

  /** Every setting read comes from a field that says so. */
  lemma {:induction false} ReadFromFields(fields: seq<ContextField>)
    requires ReadFields(fields).Some?
    ensures
      var s := ReadFields(fields).value;
      && (s.center.Some? ==> s.center.value * HERTZ < 0x8000_0000_0000_0000 && Frequency(s.center.value * HERTZ) in fields)
      && (s.rate.Some? ==> s.rate.value > 0 && SampleRate(s.rate.value * HERTZ) in fields)
      && (s.bandwidth.Some? ==> Bandwidth(s.bandwidth.value) in fields)
      && (s.gain.Some? ==> Gain(s.gain.value.0, s.gain.value.1) in fields)
  {
    if fields != [] {
      var (before, last) := (fields[..|fields| - 1], fields[|fields| - 1]);
      ReadFromFields(before);
      assert forall f :: f in before ==> f in fields;
      assert last in fields;
    }
  }

  /** The settings read so far, when the four fields stand at these places. */
  function ReadTo(v: Values, n: nat, a: nat, b: nat, c: nat, d: nat): Settings {
    Settings(if a < n then Some(v.center) else None, if b < n then Some(v.rate) else None,
             if c < n then Some(v.bandwidth) else None, if d < n then Some(v.gain) else None)
  }

  lemma {:induction false} ReadsTo(fields: seq<ContextField>, v: Values, n: nat, a: nat, b: nat, c: nat, d: nat)
    requires Carries(fields, v) && n <= 4 && a < 4 && b < 4 && c < 4 && d < 4
    requires fields[a] == Frequency(v.center * HERTZ) && fields[b] == SampleRate(v.rate * HERTZ)
    requires fields[c] == Bandwidth(v.bandwidth) && fields[d] == Gain(v.gain.0, v.gain.1)
    ensures ReadFields(fields[..n]) == Some(ReadTo(v, n, a, b, c, d))
  {
    if n > 0 {
      ReadsTo(fields, v, n - 1, a, b, c, d);
      assert fields[..n][..n - 1] == fields[..n - 1] && fields[..n][n - 1] == fields[n - 1];
      assert n - 1 == a || n - 1 == b || n - 1 == c || n - 1 == d;
      WholeHertz(v.center);
      WholeHertz(v.rate);
    }
  }

  lemma WholeHertz(n: nat)
    ensures n * HERTZ % HERTZ == 0 && n * HERTZ / HERTZ == n
  {}

  /** A context packet is accepted with some settings if and only if it has no class, a UTC
      time in range, exactly one field for each setting in whichever order, and settings in
      range. */
  lemma ContextAccepted(config: Config, context: Context, v: Values)
    ensures
      AcceptedSettings(config, Some(context)) == Some(SettingsOf(v))
      <==>
      && !context.classId && context.utc && context.picoseconds && context.time.picoseconds < PICOSECONDS
      && Carries(context.fields, v) && SettingsOk(config, SettingsOf(v))
    ensures
      AcceptedSettings(config, Some(context)).Some? ==>
        exists u :: AcceptedSettings(config, Some(context)) == Some(SettingsOf(u))
  {
    if AcceptedSettings(config, Some(context)).Some? {
      var s := AcceptedSettings(config, Some(context)).value;
      assert SettingsOf(Values(s.center.value, s.rate.value, s.bandwidth.value, s.gain.value)) == s;
    }
    var fields := context.fields;
    if ReadFields(fields).Some? {
      ReadFromFields(fields);
    }
    if Carries(fields, v) {
      var a: nat :| a < 4 && fields[a] == Frequency(v.center * HERTZ);
      var b: nat :| b < 4 && fields[b] == SampleRate(v.rate * HERTZ);
      var c: nat :| c < 4 && fields[c] == Bandwidth(v.bandwidth);
      var d: nat :| d < 4 && fields[d] == Gain(v.gain.0, v.gain.1);
      ReadsTo(fields, v, 4, a, b, c, d);
      assert fields[..4] == fields;
    }
    hide ReadFields, SettingsOk;
  }

  /** The ranges: a bandwidth above zero and within the rate, a gain of one stage within 60 dB
      (in steps of 1/128 dB), a rate from 1 kHz to 2 MHz, and the center within its bounds. */
  lemma SettingsMeaning(config: Config, v: Values)
    requires config.processing.Valid()
    ensures
      SettingsOk(config, SettingsOf(v))
      <==>
      && 0 < v.bandwidth <= v.rate * 0x10_0000 && v.gain.1 == 0 && -7680 <= v.gain.0 <= 7680
      && 1_000 <= v.rate <= 2_000_000 && config.minCenter <= v.center <= config.maxCenter
  {
    hide HasSingleBit;
  }

  /** A data packet is one of signals with the right class and a UTC time in range; its trailer
      enables the two indicators of bits 10 and 11, in whichever state, and no others. */
  lemma EnvelopeMeaning(data: Data)
    ensures
      SdrEnvelope(data)
      <==>
      && data.signal && data.classMatches && data.utc && data.picoseconds && data.time.picoseconds < 1_000_000_000_000
      && data.trailer in {Some(0x00c0_0000), Some(0x00c0_0400), Some(0x00c0_0800), Some(0x00c0_0c00)}
  {
    if data.trailer.Some? {
      TrailerBits(data.trailer.value);
    }
  }

  lemma TrailerBits(t: bv32)
    ensures t & !(0x0000_0c00 as bv32) == 0x00c0_0000
       <==> t == 0x00c0_0000 || t == 0x00c0_0400 || t == 0x00c0_0800 || t == 0x00c0_0c00
  {}
}
