/** ControlSlot: at most one controller at a time, each with a generation of its own. */
module ControlSlots {
  import opened SpectrumTypes

  /** Times are instants of one monotonic clock. */
  datatype SlotState = SlotState(next: u64, active: Option<u64>, lastLiveness: int)

  const EMPTY := SlotState(1, None, 0)

  datatype SlotOp =
    | Acquire(now: int)
    | ObserveLiveness(generation: u64, now: int)
    | Release(generation: u64)
    | ReleaseIfStale(now: int, timeout: nat)

  /** `n++` on 64-bit unsigned values */
  function Increment(n: u64): u64 {
    if n == 0xffff_ffff_ffff_ffff then 0 else n + 1
  }

  /** The state after an operation, whether it took effect, and the generation it handed out. */
  function Apply(s: SlotState, op: SlotOp): (SlotState, bool, Option<u64>) {
    match op
    case Acquire(now) =>
      if s.active.Some? || s.next == 0 then (s, false, None)
      else (SlotState(Increment(s.next), Some(s.next), now), true, Some(s.next))
    case ObserveLiveness(generation, now) =>
      if s.active != Some(generation) || now < s.lastLiveness then (s, false, None)
      else (s.(lastLiveness := now), true, None)
    case Release(generation) =>
      if s.active != Some(generation) then (s, false, None) else (s.(active := None), true, None)
    case ReleaseIfStale(now, timeout) =>
      if s.active.None? || now < s.lastLiveness || now - s.lastLiveness < timeout then (s, false, None)
      else (s.(active := None), true, None)
  }

  class ControlSlot {
    var next: u64
    var active: Option<u64>
    var lastLiveness: int

    function State(): SlotState
      reads this
    {
      SlotState(next, active, lastLiveness)
    }

    constructor ()
      ensures State() == EMPTY
    {
      next, active, lastLiveness := 1, None, 0;
    }

    method Acquire(now: int) returns (generation: Option<u64>)
      modifies this
      ensures var (s, ok, g) := Apply(old(State()), SlotOp.Acquire(now)); State() == s && generation == g
    {
      if active.Some? || next == 0 {
        return None;
      }
      active := Some(next);
      next := Increment(next);
      lastLiveness := now;
      return active;
    }

    method ObserveLiveness(generation: u64, now: int) returns (ok: bool)
      modifies this
      ensures var (s, r, g) := Apply(old(State()), SlotOp.ObserveLiveness(generation, now)); State() == s && ok == r
    {
      if active != Some(generation) || now < lastLiveness {
        return false;
      }
      lastLiveness := now;
      return true;
    }

    method Release(generation: u64) returns (ok: bool)
      modifies this
      ensures var (s, r, g) := Apply(old(State()), SlotOp.Release(generation)); State() == s && ok == r
    {
      if active != Some(generation) {
        return false;
      }
      active := None;
      return true;
    }

    method ReleaseIfStale(now: int, timeout: nat) returns (ok: bool)
      modifies this
      ensures var (s, r, g) := Apply(old(State()), SlotOp.ReleaseIfStale(now, timeout)); State() == s && ok == r
    {
      if active.None? || now < lastLiveness || now - lastLiveness < timeout {
        return false;
      }
      active := None;
      return true;
    }
  }

  // ----- Every run -----

  /** The state after some operations on a new slot, and the generations handed out, in order. */
  function Run(ops: seq<SlotOp>): (r: (SlotState, seq<u64>)) {
    if ops == [] then (EMPTY, [])
    else
      var (before, handed) := Run(ops[..|ops| - 1]);
      var (after, ok, generation) := Apply(before, ops[|ops| - 1]);
      (after, if generation.Some? then handed + [generation.value] else handed)
  }

  /** The generations handed out are 1, 2, 3, ... and stop for good at the largest
      64-bit number; an active slot holds the last of them. */
  lemma {:induction false} GenerationsUnique(ops: seq<SlotOp>)
    ensures
      var (s, handed) := Run(ops);
      && (forall i :: 0 <= i < |handed| ==> handed[i] == i + 1)
      && s.next == (if |handed| == 0xffff_ffff_ffff_ffff then 0 else |handed| + 1)
      && (s.active.Some? ==> handed != [] && s.active.value == |handed|)
      && |handed| <= 0xffff_ffff_ffff_ffff
  {
    if ops != [] {
      GenerationsUnique(ops[..|ops| - 1]);
    }
  }

  /** Liveness never moves backwards while one generation is active. */
  lemma LivenessMonotone(s: SlotState, op: SlotOp)
    ensures
      var after := Apply(s, op).0;
      s.active.Some? && after.active == s.active ==> after.lastLiveness >= s.lastLiveness
  {}

  // ----- While the owner lives -----

  /** The operation leaves generation g in the slot if g was alive at t. */
  predicate Spares(op: SlotOp, g: u64, t: int) {
    match op
    case Release(h) => h != g
    case ReleaseIfStale(now, timeout) => now < t + timeout
    case _ => true
  }

  /** What a run that ends in a sign of life at t shows: g was just taken, or is active and was heard. */
  predicate AliveAt(ops: seq<SlotOp>, g: u64, t: int) {
    ops != [] &&
    var (before, last) := (Run(ops[..|ops| - 1]).0, ops[|ops| - 1]);
    || (last == Acquire(t) && before.active.None? && before.next == g != 0)
    || (last == ObserveLiveness(g, t) && before.active == Some(g))
  }

  lemma RunMore(ops: seq<SlotOp>, op: SlotOp)
    ensures Run(ops + [op]).0 == Apply(Run(ops).0, op).0
  {
    assert (ops + [op])[..|ops|] == ops;
  }

  /** A generation that was taken or heard at t stays, whatever else happens to the slot, through
      every stale check before t plus its timeout. */
  lemma {:induction false} LiveOwnerStays(ops: seq<SlotOp>, more: seq<SlotOp>, g: u64, t: int)
    requires AliveAt(ops, g, t) && forall op :: op in more ==> Spares(op, g, t)
    ensures Run(ops + more).0.active == Some(g) && Run(ops + more).0.lastLiveness >= t
  {
    if more == [] {
      assert ops + more == ops;
    } else {
      var (shorter, last) := (more[..|more| - 1], more[|more| - 1]);
      LiveOwnerStays(ops, shorter, g, t);
      assert ops + more == (ops + shorter) + [last];
      RunMore(ops + shorter, last);
      assert Spares(last, g, t);
      hide Run;
    }
  }

  /** No sign of life of g. */
  predicate Silent(op: SlotOp, g: u64) {
    op.ObserveLiveness? ==> op.generation != g
  }

  lemma {:induction false} StaysUnheard(ops: seq<SlotOp>, more: seq<SlotOp>, g: u64, t: int)
    requires Run(ops).0.active == Some(g) && Run(ops).0.lastLiveness == t
    requires forall op :: op in more ==> Spares(op, g, t) && Silent(op, g)
    ensures Run(ops + more).0.active == Some(g) && Run(ops + more).0.lastLiveness == t
  {
    if more == [] {
      assert ops + more == ops;
    } else {
      var (shorter, last) := (more[..|more| - 1], more[|more| - 1]);
      StaysUnheard(ops, shorter, g, t);
      assert ops + more == (ops + shorter) + [last];
      RunMore(ops + shorter, last);
      assert Spares(last, g, t) && Silent(last, g);
      hide Run;
    }
  }

  /** One that was last heard at t is let go by the first stale check from t plus the timeout on. */
  lemma SilentOwnerGoes(ops: seq<SlotOp>, more: seq<SlotOp>, g: u64, t: int, now: int, timeout: nat)
    requires AliveAt(ops, g, t) && Run(ops).0.lastLiveness <= t && now >= t + timeout
    requires forall op :: op in more ==> Spares(op, g, t) && Silent(op, g)
    ensures Run(ops + more + [ReleaseIfStale(now, timeout)]).0.active.None?
  {
    LiveOwnerStays(ops, [], g, t);
    assert ops + [] == ops;
    StaysUnheard(ops, more, g, t);
    RunMore(ops + more, ReleaseIfStale(now, timeout));
    hide Run;
  }
}
