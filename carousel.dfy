/**
 * The rotation rule every auto-advancing carousel of the site shares: on each
 * timer tick the cursor moves to `(i + 1) % n`, wrapping from the last item
 * back to the first.
 */
module Carousel {
  import opened Js

  /** One tick of a carousel over `n` items. */
  function Next(i: nat, n: nat): (j: nat)
    requires n > 0
    ensures j < n
    ensures i + 1 < n ==> j == i + 1
    ensures i + 1 == n ==> j == 0
  {
    (i + 1) % n
  }

  /** The cursor after `k` ticks starting from `i`. */
  function Advance(i: nat, n: nat, k: nat): (j: nat)
    requires n > 0
    ensures 0 < k ==> j < n
  {
    if k == 0 then i else Next(Advance(i, n, k - 1), n)
  }

  lemma ModSucc(a: nat, n: nat)
    requires n > 0
    ensures (a % n + 1) % n == (a + 1) % n
  {
    var q, r := a / n, a % n;
    assert a == q * n + r;
    if r + 1 < n {
      ModUnique(a + 1, n, q, r + 1);
      ModUnique(r + 1, n, 0, r + 1);
    } else {
      assert a + 1 == (q + 1) * n + 0;
      ModUnique(a + 1, n, q + 1, 0);
      ModUnique(r + 1, n, 1, 0);
    }
  }

  /** `k` ticks move a cursor that is in range by `k` places, modulo `n`. */
  lemma {:induction false} AdvanceIsShift(i: nat, n: nat, k: nat)
    requires i < n
    ensures Advance(i, n, k) == (i + k) % n
  {
    if k == 0 {
      ModUnique(i, n, 0, i);
    } else {
      AdvanceIsShift(i, n, k - 1);
      ModSucc(i + k - 1, n);
    }
  }

  /**
   * After exactly `n` ticks the cursor is back where it started, and no
   * smaller positive number of ticks brings it back.
   */
  lemma FullCycle(i: nat, n: nat)
    requires i < n
    ensures Advance(i, n, n) == i
    ensures forall k :: 0 < k < n ==> Advance(i, n, k) != i
  {
    AdvanceIsShift(i, n, n);
    ModUnique(i + n, n, 1, i);
    forall k | 0 < k < n
      ensures Advance(i, n, k) != i
    {
      AdvanceIsShift(i, n, k);
      if i + k < n {
        ModUnique(i + k, n, 0, i + k);
      } else {
        ModUnique(i + k, n, 1, i + k - n);
      }
    }
  }

  /** Within one cycle every item comes round: from any cursor, some `k < n` ticks reach any item. */
  lemma EveryItemComesRound(i: nat, n: nat, j: nat)
    requires i < n && j < n
    ensures exists k :: 0 <= k < n && Advance(i, n, k) == j
  {
    var k := if i <= j then j - i else j + n - i;
    AdvanceIsShift(i, n, k);
    if i <= j {
      ModUnique(i + k, n, 0, j);
    } else {
      ModUnique(i + k, n, 1, j);
    }
  }

  /** Which of `n` indicators is highlighted: the one at the cursor. */
  function Indicators(cursor: nat, n: nat): (marks: seq<bool>)
    ensures |marks| == n
    ensures forall i :: 0 <= i < n ==> (marks[i] <==> i == cursor)
  {
    seq(n, i => i == cursor)
  }

  function CountTrue(bs: seq<bool>): nat
  {
    if bs == [] then 0 else (if bs[0] then 1 else 0) + CountTrue(bs[1..])
  }

  lemma {:induction false} CountTrueNone(bs: seq<bool>)
    requires forall i :: 0 <= i < |bs| ==> !bs[i]
    ensures CountTrue(bs) == 0
  {
    if bs != [] {
      CountTrueNone(bs[1..]);
    }
  }

  lemma {:induction false} CountTrueSingle(bs: seq<bool>, k: nat)
    requires k < |bs|
    requires forall i :: 0 <= i < |bs| ==> (bs[i] <==> i == k)
    ensures CountTrue(bs) == 1
  {
    if k == 0 {
      CountTrueNone(bs[1..]);
    } else {
      CountTrueSingle(bs[1..], k - 1);
    }
  }

  /** When the cursor is in range, exactly one indicator is highlighted. */
  lemma ExactlyOneIndicator(cursor: nat, n: nat)
    requires cursor < n
    ensures CountTrue(Indicators(cursor, n)) == 1
  {
    CountTrueSingle(Indicators(cursor, n), cursor);
  }
}
