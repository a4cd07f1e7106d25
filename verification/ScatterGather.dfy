/** Sending a message of several segments piece by piece: what a cursor of segment
    and offset means, and what one partial write does to it. */
module ScatterGather {
  import opened SpectrumTypes

  type Segments = seq<seq<byte>>

  /** The message the segments spell. */
  function Message(segments: Segments): seq<byte> {
    if segments == [] then [] else segments[0] + Message(segments[1..])
  }

  /** A position inside the message; the end is the cursor (number of segments, 0). */
  predicate CursorOk(segments: Segments, segment: nat, offset: nat) {
    if segment < |segments| then offset <= |segments[segment]| else segment == |segments| && offset == 0
  }

  /** The bytes before the cursor. */
  function Before(segments: Segments, segment: nat, offset: nat): seq<byte>
    requires CursorOk(segments, segment, offset)
  {
    if segment == |segments| then Message(segments)
    else Message(segments[..segment]) + segments[segment][..offset]
  }

  /** The bytes from the cursor on. */
  function Rest(segments: Segments, segment: nat, offset: nat): seq<byte>
    requires CursorOk(segments, segment, offset)
  {
    if segment == |segments| then [] else segments[segment][offset..] + Message(segments[segment + 1..])
  }

  lemma {:induction false} MessageSplit(segments: Segments, k: nat)
    requires k <= |segments|
    ensures Message(segments) == Message(segments[..k]) + Message(segments[k..])
  {
    if k == 0 {
      assert segments[..0] == [] && segments[0..] == segments;
    } else {
      MessageSplit(segments[1..], k - 1);
      assert segments[1..][..k - 1] == segments[..k][1..] && segments[1..][k - 1..] == segments[k..];
      assert segments[..k][0] == segments[0];
      assert segments[0] + (Message(segments[..k][1..]) + Message(segments[k..]))
          == segments[0] + Message(segments[..k][1..]) + Message(segments[k..]);
    }
  }

  lemma MessageSnoc(segments: Segments, k: nat)
    requires k < |segments|
    ensures Message(segments[..k + 1]) == Message(segments[..k]) + segments[k]
    ensures Message(segments[k..]) == segments[k] + Message(segments[k + 1..])
  {
    MessageSplit(segments[..k + 1], k);
    assert segments[..k + 1][..k] == segments[..k] && segments[..k + 1][k..] == [segments[k]];
    var one: Segments := [segments[k]];
    assert one[1..] == [] && Message(one) == segments[k] + Message([]);
    assert segments[k..][1..] == segments[k + 1..];
  }

  lemma SplitInside(a: seq<byte>, s: seq<byte>, c: seq<byte>, offset: nat)
    requires offset <= |s|
    ensures a + (s + c) == (a + s[..offset]) + (s[offset..] + c)
  {
    assert s == s[..offset] + s[offset..];
  }

  /** Before and after the cursor is the whole message. */
  lemma CursorSplits(segments: Segments, segment: nat, offset: nat)
    requires CursorOk(segments, segment, offset)
    ensures Message(segments) == Before(segments, segment, offset) + Rest(segments, segment, offset)
  {
    if segment < |segments| {
      MessageSplit(segments, segment);
      MessageSnoc(segments, segment);
      SplitInside(Message(segments[..segment]), segments[segment], Message(segments[segment + 1..]), offset);
      hide Message;
    }
  }

  /** The loop that moves the cursor over the bytes the socket took. */
  function Advance(segments: Segments, segment: nat, offset: nat, consumed: nat): (r: (nat, nat))
    requires CursorOk(segments, segment, offset)
    ensures CursorOk(segments, r.0, r.1)
    decreases |segments| - segment
  {
    if consumed == 0 || segment == |segments| then (segment, offset)
    else
      var remaining := |segments[segment]| - offset;
      if consumed < remaining then (segment, offset + consumed)
      else Advance(segments, segment + 1, 0, consumed - remaining)
  }

  method AdvanceCursor(segments: Segments, segment: nat, offset: nat, sent: nat) returns (newSegment: nat, newOffset: nat)
    requires CursorOk(segments, segment, offset)
    ensures (newSegment, newOffset) == Advance(segments, segment, offset, sent)
  {
    newSegment, newOffset := segment, offset;
    var consumed: nat := sent;
    while consumed != 0 && newSegment < |segments|
      invariant CursorOk(segments, newSegment, newOffset)
      invariant Advance(segments, newSegment, newOffset, consumed) == Advance(segments, segment, offset, sent)
      decreases |segments| - newSegment, consumed
    {
      var remaining := |segments[newSegment]| - newOffset;
      if consumed < remaining {
        newOffset := newOffset + consumed;
        consumed := 0;
      } else {
        consumed := consumed - remaining;
        newSegment := newSegment + 1;
        newOffset := 0;
      }
    }
  }

  lemma NextSegment(segments: Segments, segment: nat, offset: nat)
    requires segment < |segments| && offset <= |segments[segment]|
    ensures Before(segments, segment + 1, 0) == Before(segments, segment, offset) + segments[segment][offset..]
    ensures Rest(segments, segment, offset) == segments[segment][offset..] + Rest(segments, segment + 1, 0)
  {
    var s := segments[segment];
    MessageSnoc(segments, segment);
    assert s == s[..offset] + s[offset..];
    if segment + 1 == |segments| {
      assert segments[..segment + 1] == segments && segments[segment + 1..] == [];
      assert Message(segments) == Message(segments[..segment]) + s;
    } else {
      MessageSnoc(segments, segment + 1);
      assert segments[segment + 1][0..] == segments[segment + 1];
      assert Message(segments[..segment + 1]) + segments[segment + 1][..0] == Message(segments[..segment + 1]);
    }
  }

  /** The cursor moves over exactly the bytes taken. */
  lemma {:induction false} AdvanceMoves(segments: Segments, segment: nat, offset: nat, consumed: nat)
    requires CursorOk(segments, segment, offset) && consumed <= |Rest(segments, segment, offset)|
    ensures
      var (s, o) := Advance(segments, segment, offset, consumed);
      Before(segments, s, o) == Before(segments, segment, offset) + Rest(segments, segment, offset)[..consumed]
    decreases |segments| - segment
  {
    if consumed == 0 {
      assert Rest(segments, segment, offset)[..0] == [];
      assert Before(segments, segment, offset) + [] == Before(segments, segment, offset);
    } else {
      assert segment < |segments|;
      var remaining := |segments[segment]| - offset;
      hide Before, Rest, Message;
      if consumed < remaining {
        StepInside(segments, segment, offset, consumed);
      } else {
        AdvanceMoves(segments, segment + 1, 0, LeftAfter(segments, segment, offset, consumed));
        StepAcross(segments, segment, offset, consumed);
      }
    }
  }

  /** What is left of the count after the rest of this segment. */
  function LeftAfter(segments: Segments, segment: nat, offset: nat, consumed: nat): (left: nat)
    requires segment < |segments| && offset <= |segments[segment]|
    requires |segments[segment]| - offset <= consumed <= |Rest(segments, segment, offset)|
    ensures left == consumed - (|segments[segment]| - offset) && left <= |Rest(segments, segment + 1, 0)|
  {
    NextSegment(segments, segment, offset);
    consumed - (|segments[segment]| - offset)
  }

  lemma StepInside(segments: Segments, segment: nat, offset: nat, consumed: nat)
    requires segment < |segments| && offset + consumed <= |segments[segment]|
    ensures Before(segments, segment, offset + consumed)
         == Before(segments, segment, offset) + Rest(segments, segment, offset)[..consumed]
  {
    var s := segments[segment];
    TakeLeft(s[offset..], Message(segments[segment + 1..]), consumed);
    assert s[..offset + consumed] == s[..offset] + s[offset..][..consumed];
    Regroup(Message(segments[..segment]), s[..offset], s[offset..][..consumed]);
  }

  lemma StepAcross(segments: Segments, segment: nat, offset: nat, consumed: nat)
    requires segment < |segments| && offset <= |segments[segment]|
    requires |segments[segment]| - offset <= consumed <= |Rest(segments, segment, offset)|
    ensures Before(segments, segment + 1, 0) + Rest(segments, segment + 1, 0)[..LeftAfter(segments, segment, offset, consumed)]
         == Before(segments, segment, offset) + Rest(segments, segment, offset)[..consumed]
  {
    var tail, next := segments[segment][offset..], Rest(segments, segment + 1, 0);
    var left := LeftAfter(segments, segment, offset, consumed);
    NextSegment(segments, segment, offset);
    TakeAcross(tail, next, consumed);
    Regroup(Before(segments, segment, offset), tail, next[..left]);
  }

  lemma TakeLeft(a: seq<byte>, b: seq<byte>, n: nat)
    requires n <= |a|
    ensures (a + b)[..n] == a[..n]
  {}

  lemma TakeAcross(a: seq<byte>, b: seq<byte>, n: nat)
    requires |a| <= n <= |a| + |b|
    ensures (a + b)[..n] == a + b[..n - |a|]
  {}

  lemma Regroup(a: seq<byte>, b: seq<byte>, c: seq<byte>)
    ensures (a + b) + c == a + (b + c)
  {}

  /** The cursor is past the last segment exactly when that segment is not empty and
      every byte is taken: a message that ends in an empty segment never finishes. */
  lemma {:induction false} AdvanceFinishes(segments: Segments, segment: nat, offset: nat, consumed: nat)
    requires CursorOk(segments, segment, offset) && segment < |segments|
    requires consumed <= |Rest(segments, segment, offset)|
    ensures
      Advance(segments, segment, offset, consumed).0 == |segments|
      <==> consumed == |Rest(segments, segment, offset)| && segments[|segments| - 1] != [] && consumed > 0
    decreases |segments| - segment
  {
    var s := segments[segment];
    var remaining := |s| - offset;
    if consumed > 0 && consumed >= remaining {
      NextSegment(segments, segment, offset);
      if segment + 1 < |segments| {
        AdvanceFinishes(segments, segment + 1, 0, consumed - remaining);
        if consumed == remaining {
          LastIsPartOfRest(segments, segment + 1);
        }
      }
    }
    if consumed == 0 {
      LastIsPartOfRest(segments, segment);
    }
  }

  lemma {:induction false} LastIsPartOfRest(segments: Segments, segment: nat)
    requires segment < |segments|
    ensures |Rest(segments, segment, 0)| == 0 ==> segments[|segments| - 1] == []
    decreases |segments| - segment
  {
    NextSegment(segments, segment, 0);
    if segment + 1 < |segments| {
      LastIsPartOfRest(segments, segment + 1);
    }
  }

  /** At most the budget from the front. */
  function Clip(bytes: seq<byte>, budget: Option<nat>): seq<byte> {
    if budget.Some? && budget.value < |bytes| then bytes[..budget.value] else bytes
  }

  /** The bytes offered to one write: at most the budget, from the cursor on. */
  function Gather(segments: Segments, segment: nat, offset: nat, budget: Option<nat>): (vectors: Segments)
    requires CursorOk(segments, segment, offset)
    ensures |vectors| <= |segments| - segment
    decreases |segments| - segment
  {
    if segment == |segments| || budget == Some(0) then []
    else
      var vector := Clip(segments[segment][offset..], budget);
      [vector] + Gather(segments, segment + 1, 0, if budget.Some? then Some(budget.value - |vector|) else None)
  }

  lemma ClipJoin(a: seq<byte>, b: seq<byte>, budget: Option<nat>)
    ensures Clip(a + b, budget)
         == Clip(a, budget) + Clip(b, if budget.Some? then Some(budget.value - |Clip(a, budget)|) else None)
  {
    if budget.Some? && budget.value < |a| {
      TakeLeft(a, b, budget.value);
      assert b[..0] == [] && Clip(b, Some(0)) == [];
    } else if budget.Some? && budget.value < |a + b| {
      TakeAcross(a, b, budget.value);
    }
  }

  lemma MessageCons(first: seq<byte>, rest: Segments)
    ensures Message([first] + rest) == first + Message(rest)
  {
    assert ([first] + rest)[1..] == rest;
  }

  /** They are the next bytes of the message, all of them unless the budget is smaller. */
  lemma {:induction false} GatherIsRest(segments: Segments, segment: nat, offset: nat, budget: Option<nat>)
    requires CursorOk(segments, segment, offset)
    ensures Message(Gather(segments, segment, offset, budget)) == Clip(Rest(segments, segment, offset), budget)
    decreases |segments| - segment
  {
    if segment < |segments| && budget != Some(0) {
      var tail, next := segments[segment][offset..], Rest(segments, segment + 1, 0);
      var first := Clip(tail, budget);
      var left: Option<nat> := if budget.Some? then Some(budget.value - |first|) else None;
      NextSegment(segments, segment, offset);
      GatherIsRest(segments, segment + 1, 0, left);
      MessageCons(first, Gather(segments, segment + 1, 0, left));
      ClipJoin(tail, next, budget);
    }
  }

  method GatherVectors(segments: Segments, segment: nat, offset: nat, budget: Option<nat>) returns (vectors: Segments)
    requires CursorOk(segments, segment, offset)
    ensures vectors == Gather(segments, segment, offset, budget)
  {
    vectors := [];
    var index: nat, from: nat := segment, offset;
    var left: Option<nat> := budget;
    while index < |segments| && left != Some(0)
      invariant CursorOk(segments, index, from)
      invariant vectors + Gather(segments, index, from, left) == Gather(segments, segment, offset, budget)
      decreases |segments| - index
    {
      var available: nat := |segments[index]| - from;
      var length: nat := if left.Some? && left.value < available then left.value else available;
      var vector := segments[index][from..from + length];
      assert vector == Clip(segments[index][from..], left);
      left := if left.Some? then Some(left.value - length) else None;
      Extend(vectors, vector, Gather(segments, index + 1, 0, left));
      vectors := vectors + [vector];
      index, from := index + 1, 0;
    }
    assert vectors + [] == vectors;
  }

  lemma Extend(vectors: Segments, vector: seq<byte>, rest: Segments)
    ensures vectors + ([vector] + rest) == vectors + [vector] + rest
  {}

  /** The number of bytes in all segments. */
  method TotalSize(vectors: Segments) returns (size: nat)
    ensures size == |Message(vectors)|
  {
    size := 0;
    assert vectors[..0] == [];
    for k := 0 to |vectors|
      invariant size == |Message(vectors[..k])|
    {
      MessageSnoc(vectors, k);
      size := size + |vectors[k]|;
    }
    assert vectors[..|vectors|] == vectors;
  }
}
