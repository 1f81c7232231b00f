/** The relay's drain loop: what it does after each drain, and how long it backs off. */
module Relay {
  import opened Domain
  import opened OutboxDrain

  const MAX_BACKOFF: int := 30 * SECOND
  const TWO_63: int := 0x8000_0000_0000_0000

  // int64 arithmetic, as time.Duration has it.
  function Wrap64(x: int): (r: int)
    ensures -TWO_63 <= r < TWO_63
    ensures -TWO_63 <= x < TWO_63 ==> r == x
    ensures (r - x) % (2 * TWO_63) == 0
  {
    (x + TWO_63) % (2 * TWO_63) - TWO_63
  }

  datatype Action = Pause(d: int) | DrainAgain | Wait

  // The value of backoff after k failed drains in a row.
  function Backoff(poll: int, k: nat): int {
    if k == 0 then poll else Min(Wrap64(Backoff(poll, k - 1) * 2), MAX_BACKOFF)
  }

  // How many of the last drains failed without a success in between.
  function Streak(results: seq<DrainResult>): nat {
    if results == [] || results[|results| - 1].err.None? then 0
    else 1 + Streak(results[..|results| - 1])
  }

  // What the loop does after the last of these drains.
  function ActionAfter(results: seq<DrainResult>, poll: int): Action
    requires results != []
  {
    var last := results[|results| - 1];
    if last.err.Some? then Pause(Backoff(poll, Streak(results)))
    else if last.full then DrainAgain
    else Wait
  }

  // results are the drains up to the one during which the context was cancelled.
  method Run(results: seq<DrainResult>, poll: int) returns (actions: seq<Action>)
    requires 0 < poll < TWO_63
    ensures |actions| == |results|
    ensures forall i :: 0 <= i < |results| ==> actions[i] == ActionAfter(results[..i + 1], poll)
    ensures forall i :: 0 <= i < |results| && results[i].err.None? ==>
      actions[i] == if results[i].full then DrainAgain else Wait
    ensures poll * 2 < TWO_63 ==> forall i, j :: -1 <= i < j < |results| && FailedSince(results, i, j) ==>
              actions[j] == Pause(Min(poll * Pow2(j - i), 30_000_000_000))
  {
    actions := [];
    var backoff := poll;
    for i := 0 to |results|
      invariant |actions| == i
      invariant backoff == Backoff(poll, Streak(results[..i]))
      invariant forall j :: 0 <= j < i ==> actions[j] == ActionAfter(results[..j + 1], poll)
    {
      var r := results[i];
      assert results[..i + 1][..i] == results[..i];
      if r.err.Some? {
        backoff := Min(Wrap64(backoff * 2), MAX_BACKOFF);
        actions := actions + [Pause(backoff)];
      } else if r.full {
        backoff := poll;
        actions := actions + [DrainAgain];
      } else {
        backoff := poll;
        actions := actions + [Wait];
      }
    }
    if poll * 2 < TWO_63 {
      forall i, j | -1 <= i < j < |results| && FailedSince(results, i, j)
        ensures actions[j] == Pause(Min(poll * Pow2(j - i), 30 * SECOND))
      {
        StreakSince(results, i, j);
        BackoffClosedForm(poll, j - i);
      }
    }
  }

  // The drains after i up to j all failed, and i is the last success before them, or the start of the loop.
  predicate FailedSince(results: seq<DrainResult>, i: int, j: int)
    requires -1 <= i < j < |results|
  {
    (i >= 0 ==> results[i].err.None?) && forall k :: i < k <= j ==> results[k].err.Some?
  }

  lemma {:induction false} StreakSince(results: seq<DrainResult>, i: int, j: int)
    requires -1 <= i < j < |results| && FailedSince(results, i, j)
    ensures Streak(results[..j + 1]) == j - i
    decreases j
  {
    assert results[..j + 1][..j] == results[..j];
    if i < j - 1 {
      StreakSince(results, i, j - 1);
    } else if i >= 0 {
      assert results[..j][j - 1] == results[i];
    }
  }

  lemma Doubling(poll: int, factor: nat)
    requires 0 < poll && 1 <= factor
    ensures poll * (2 * factor) == 2 * (poll * factor) && 0 < poll * factor
  {
  }

  lemma {:induction false} BackoffClosedForm(poll: int, k: nat)
    requires 0 < poll && poll * 2 < TWO_63 && 1 <= k
    ensures Backoff(poll, k) == Min(poll * Pow2(k), 30 * SECOND)
  {
    if k == 1 {
      assert Pow2(1) == 2;
    } else {
      BackoffClosedForm(poll, k - 1);
      Doubling(poll, Pow2(k - 1));
    }
  }

  // The closed form holds for all streaks exactly when doubling the poll interval does not overflow.
  lemma BackoffExactlyWhen(poll: int)
    requires 0 < poll < TWO_63
    ensures (forall k: nat :: 1 <= k ==> Backoff(poll, k) == Min(poll * Pow2(k), 30 * SECOND)) <==> poll * 2 < TWO_63
  {
    if poll * 2 < TWO_63 {
      forall k: nat | 1 <= k ensures Backoff(poll, k) == Min(poll * Pow2(k), 30 * SECOND) {
        BackoffClosedForm(poll, k);
      }
    } else {
      assert Pow2(1) == 2 && Backoff(poll, 0) == poll;
      assert Backoff(poll, 1) == Min(Wrap64(poll * 2), MAX_BACKOFF) < 0;
    }
  }
}
