/** Big-endian integers, as put and get move them in and out of a buffer. */
module BigEndian {
  import opened SpectrumTypes

  /** `value >> (8 * n)` */
  function ShiftRight(value: nat, n: nat): nat {
    if n == 0 then value else ShiftRight(value / 0x100, n - 1)
  }

  /** The low `count` bytes of value, most significant first. */
  function Bytes(value: nat, count: nat): (b: seq<byte>)
    ensures |b| == count
  {
    if count == 0 then [] else Bytes(value / 0x100, count - 1) + [value % 0x100]
  }

  function Value(b: seq<byte>): nat {
    if b == [] then 0 else Value(b[..|b| - 1]) * 0x100 + b[|b| - 1]
  }

  /** 256^n */
  function Limit(n: nat): nat {
    if n == 0 then 1 else 0x100 * Limit(n - 1)
  }

  lemma {:induction false} ByteAt(value: nat, count: nat, i: nat)
    requires i < count
    ensures Bytes(value, count)[i] == ShiftRight(value, count - 1 - i) % 0x100
  {
    if i < count - 1 {
      ByteAt(value / 0x100, count - 1, i);
    }
  }

  lemma {:induction false} ValueOfBytes(value: nat, count: nat)
    requires value < Limit(count)
    ensures Value(Bytes(value, count)) == value
  {
    if count > 0 {
      ValueOfBytes(value / 0x100, count - 1);
      assert Bytes(value, count)[..count - 1] == Bytes(value / 0x100, count - 1);
    }
  }

  lemma {:induction false} BytesOfValue(b: seq<byte>)
    ensures Value(b) < Limit(|b|) && Bytes(Value(b), |b|) == b
  {
    if b != [] {
      BytesOfValue(b[..|b| - 1]);
      assert b == b[..|b| - 1] + [b[|b| - 1]];
    }
  }

  lemma Limits()
    ensures Limit(2) == 0x1_0000 && Limit(4) == 0x1_0000_0000 && Limit(8) == 0x1_0000_0000_0000_0000
  {
    assert Limit(1) == 0x100 && Limit(3) == 0x100_0000 && Limit(5) == 0x100_0000_0000;
    assert Limit(6) == 0x1_0000_0000_0000 && Limit(7) == 0x100_0000_0000_0000;
  }

  /** Leading zero bytes do not change the value. */
  lemma {:induction false} ValueOfPadded(b: seq<byte>)
    ensures Value([0, 0, 0, 0] + b) == Value(b)
  {
    var p: seq<byte> := [0, 0, 0, 0];
    if b == [] {
      assert p + b == p && p[..3] == [0, 0, 0] && p[..3][..2] == [0, 0] && p[..3][..2][..1] == [0];
      assert Value([0]) == 0 && Value([0, 0]) == 0 && Value([0, 0, 0]) == 0;
    } else {
      ValueOfPadded(b[..|b| - 1]);
      assert (p + b)[..|p + b| - 1] == p + b[..|b| - 1];
    }
  }

  lemma {:induction false} ValueAppend(a: seq<byte>, b: seq<byte>)
    ensures Value(a + b) == Value(a) * Limit(|b|) + Value(b)
  {
    if b == [] {
      assert a + b == a;
    } else {
      ValueAppend(a, b[..|b| - 1]);
      assert (a + b)[..|a + b| - 1] == a + b[..|b| - 1];
      Regroup(Value(a), Limit(|b| - 1), Value(b[..|b| - 1]));
    }
  }

  lemma Regroup(a: nat, l: nat, v: nat)
    ensures (a * l + v) * 0x100 == a * (0x100 * l) + v * 0x100
  {}

  /** Writes the low bytes of value at the offset, and nothing else; false stands
      for the exception of a buffer too short. */
  method Put(output: array<byte>, offset: nat, value: nat, count: nat) returns (ok: bool)
    modifies output
    ensures ok <==> offset + count <= output.Length
    ensures !ok ==> output[..] == old(output[..])
    ensures ok ==> output[..offset + count] == old(output[..offset]) + Bytes(value, count)
    ensures ok ==> output[offset + count..] == old(output[offset + count..])
  {
    if offset + count > output.Length {
      return false;
    }
    ok := true;
    for index := 0 to count
      invariant forall i :: 0 <= i < offset ==> output[i] == old(output[i])
      invariant forall i :: offset + count <= i < output.Length ==> output[i] == old(output[i])
      invariant forall i :: 0 <= i < index ==> output[offset + i] == Bytes(value, count)[i]
    {
      ByteAt(value, count, index);
      output[offset + index] := ShiftRight(value, count - index - 1) % 0x100;
    }
    assert forall i :: offset <= i < offset + count ==> output[i] == output[offset + (i - offset)];
  }

  /** Reads the bytes at the offset; None stands for the exception of a short input. */
  method Get(input: seq<byte>, offset: nat, count: nat) returns (r: Option<nat>)
    ensures r.Some? <==> offset + count <= |input|
    ensures r.Some? ==> r.value == Value(input[offset..offset + count]) && r.value < Limit(count)
  {
    if offset + count > |input| {
      return None;
    }
    var result: nat := 0;
    for index := 0 to count
      invariant result == Value(input[offset..offset + index])
    {
      assert input[offset..offset + index + 1][..index] == input[offset..offset + index];
      result := result * 0x100 + input[offset + index];
    }
    BytesOfValue(input[offset..offset + count]);
    r := Some(result);
  }
}
