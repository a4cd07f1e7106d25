/** Messages that share a stream: when their bytes arrive in one piece. */
module ByteOrder {
  import opened ScatterGather
  import opened Submissions

  /** A byte on a stream: of which message, and which byte of it. */
  datatype Mark = Mark(token: Token, index: nat)

  function Marks(t: Token, from: nat, n: nat): (marks: seq<Mark>)
    ensures |marks| == n
  {
    seq(n, k requires 0 <= k < n => Mark(t, from + k))
  }

  lemma MarksAre(t: Token, from: nat, n: nat)
    ensures forall k: nat :: k < n ==> Marks(t, from, n)[k] == Mark(t, from + k)
  {}

  function Size(ledger: Ledger, t: Token): nat {
    if t in ledger.accepted then |Message(ledger.accepted[t].segments)| else 0
  }

  /** A first byte comes first or behind a last byte, and any other byte behind the one before it. */
  predicate Follows(marks: seq<Mark>, k: nat, ledger: Ledger)
    requires k < |marks|
  {
    var m := marks[k];
    if m.index == 0 then k == 0 || marks[k - 1].index + 1 == Size(ledger, marks[k - 1].token)
    else k > 0 && marks[k - 1] == Mark(m.token, m.index - 1)
  }

  /** Whole messages one after the other, and at the end perhaps the beginning of one. */
  predicate Intact(marks: seq<Mark>, ledger: Ledger) {
    forall k: nat :: k < |marks| ==> Follows(marks, k, ledger)
  }

  // ----- More bytes at the end -----

  lemma SameSizes(marks: seq<Mark>, a: Ledger, b: Ledger)
    requires a.accepted == b.accepted
    ensures Intact(marks, a) <==> Intact(marks, b)
  {
    hide Message;
    forall k: nat | k < |marks| ensures Follows(marks, k, a) <==> Follows(marks, k, b) {
    }
  }

  lemma PrefixFollows(old_marks: seq<Mark>, t: Token, from: nat, n: nat, ledger: Ledger)
    requires n > 0
    ensures
      Intact(old_marks + Marks(t, from, n), ledger)
      <==> Intact(old_marks, ledger) && Follows(old_marks + [Mark(t, from)], |old_marks|, ledger)
  {
    var (m, all) := (|old_marks|, old_marks + Marks(t, from, n));
    assert all[m] == Mark(t, from);
    forall k: nat | k < m ensures Follows(all, k, ledger) <==> Follows(old_marks, k, ledger) {
    }
    assert Follows(all, m, ledger) <==> Follows(old_marks + [Mark(t, from)], m, ledger);
    forall k: nat | m < k < |all| ensures Follows(all, k, ledger) {
      assert all[k] == Mark(t, from + (k - m)) && all[k - 1] == Mark(t, from + (k - 1 - m));
    }
    hide Size;
  }
}
