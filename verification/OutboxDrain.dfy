/**
 One drain of the outbox: publish a claimed batch in order, classify the failures, settle the rows.
 Settle gives the meaning row by row; the methods do it with the loops and bulk statements of the store.
 */
module OutboxDrain {
  import opened Domain

  const SECOND: nat := 1000000000
  const MAX_RETRY_SECONDS: nat := 30

  datatype Row = Row(event: Event, attempts: nat, due: nat, createdAt: nat)
  datatype DeadRow = DeadRow(event: Event, attempts: nat, createdAt: nat, lastError: string)
  datatype Tables = Tables(live: map<nat, Row>, dead: map<nat, DeadRow>)

  // A row as the claim query returned it.
  datatype Claimed = Claimed(id: nat, row: Row)

  // What publishing one record came to; an undeliverable record is rejected for good.
  datatype Outcome = Sent | Undeliverable(err: string) | Transient(err: string)

  datatype Failure = Failure(claimed: Claimed, outcome: Outcome)

  function Pow2(n: nat): (r: nat)
    ensures r >= 1
  {
    if n == 0 then 1 else 2 * Pow2(n - 1)
  }

  // The retry is due after 2^attempts seconds, at most 30, counted from the drain's now().
  function Bumped(row: Row, start: nat): (r: Row)
    ensures start + SECOND <= r.due <= start + MAX_RETRY_SECONDS * SECOND
    ensures r.event == row.event && r.createdAt == row.createdAt
  {
    row.(attempts := row.attempts + 1, due := start + (Min(Pow2(row.attempts), MAX_RETRY_SECONDS) as nat) * SECOND)
  }

  lemma {:induction false} Pow2Grows(m: nat, n: nat)
    requires m <= n
    ensures Pow2(m) <= Pow2(n)
    decreases n
  {
    if m < n {
      Pow2Grows(m, n - 1);
    }
  }

  // 1, 2, 4, 8 and 16 seconds for the first five rejections, and 30 from then on.
  lemma RetryDelays(row: Row, start: nat)
    ensures row.attempts < 5 ==> Bumped(row, start).due == start + [1, 2, 4, 8, 16][row.attempts] * 1_000_000_000
    ensures row.attempts >= 5 ==> Bumped(row, start).due == start + 30_000_000_000
  {
    assert Pow2(1) == 2 && Pow2(2) == 4 && Pow2(3) == 8;
    assert Pow2(4) == 2 * Pow2(3) && Pow2(5) == 2 * Pow2(4);
    if row.attempts >= 5 {
      Pow2Grows(5, row.attempts);
    }
  }

  // Both tables have the same row, or none, under id.
  predicate SameAt(r: Tables, q: Tables, id: nat) {
    && (id in r.live <==> id in q.live) && (id in r.live ==> r.live[id] == q.live[id])
    && (id in r.dead <==> id in q.dead) && (id in r.dead ==> r.dead[id] == q.dead[id])
  }

  predicate Exhausted(row: Row, maxAttempts: nat) {
    row.attempts + 1 >= maxAttempts
  }

  function Buried(row: Row, err: string): DeadRow {
    DeadRow(row.event, row.attempts + 1, row.createdAt, err)
  }

  /* ---- The claim ---- */

  function Ids(batch: seq<Claimed>): seq<nat> {
    seq(|batch|, i requires 0 <= i < |batch| => batch[i].id)
  }

  predicate InOrder(ids: seq<nat>) {
    forall i, j :: 0 <= i < j < |ids| ==> ids[i] < ids[j]
  }

  predicate Below(ids: seq<nat>, bound: nat) {
    forall i :: 0 <= i < |ids| ==> ids[i] < bound
  }

  predicate Due(live: map<nat, Row>, locked: set<nat>, start: nat, id: nat) {
    id in live && live[id].due <= start && id !in locked
  }

  // WHERE next_attempt_at <= now() ORDER BY id LIMIT n FOR UPDATE SKIP LOCKED.
  predicate IsClaim(live: map<nat, Row>, locked: set<nat>, start: nat, batch: seq<Claimed>, n: nat) {
    && |batch| <= n
    && InOrder(Ids(batch))
    && (forall i :: 0 <= i < |batch| ==> Due(live, locked, start, batch[i].id) && live[batch[i].id] == batch[i].row)
    && (forall id :: id in live && Due(live, locked, start, id) ==>
          id in Ids(batch) || (|batch| == n && Below(Ids(batch), id)))
  }

  // The query under way: batch is selected, left are the due rows still to come.
  predicate Claiming(live: map<nat, Row>, locked: set<nat>, start: nat, batch: seq<Claimed>, left: set<nat>) {
    && InOrder(Ids(batch))
    && (forall i :: 0 <= i < |batch| ==> Due(live, locked, start, batch[i].id) && live[batch[i].id] == batch[i].row)
    && (forall id :: id in left ==> Due(live, locked, start, id) && Below(Ids(batch), id))
    && (forall id :: id in live && Due(live, locked, start, id) ==> id in Ids(batch) || id in left)
  }

  lemma ClaimNext(live: map<nat, Row>, locked: set<nat>, start: nat, batch: seq<Claimed>, left: set<nat>, id: nat)
    requires Claiming(live, locked, start, batch, left) && id in left && forall k :: k in left ==> id <= k
    ensures Claiming(live, locked, start, batch + [Claimed(id, live[id])], left - {id})
  {
    var longer := batch + [Claimed(id, live[id])];
    assert Ids(longer) == Ids(batch) + [id];
    forall k | k in live && Due(live, locked, start, k) ensures k in Ids(longer) || k in left - {id} {
      assert k in Ids(batch) || k in left;
      assert Ids(longer)[|batch|] == id;
    }
  }

  lemma {:induction false} Least(ids: set<nat>) returns (least: nat)
    requires ids != {}
    ensures least in ids && forall k :: k in ids ==> least <= k
    decreases |ids|
  {
    var first :| first in ids;
    var rest := ids - {first};
    assert forall k :: k in ids ==> k == first || k in rest;
    least := first;
    if rest != {} {
      var other := Least(rest);
      least := if other < first then other else first;
    }
  }

  lemma ClaimIsHolding(t: Tables, locked: set<nat>, start: nat, batch: seq<Claimed>, n: nat)
    requires IsClaim(t.live, locked, start, batch, n)
    ensures Holding(t, batch)
  {
    forall i, j | 0 <= i < j < |batch| ensures batch[i].id != batch[j].id {
      assert Ids(batch)[i] < Ids(batch)[j];
    }
  }

  /* ---- Meaning ---- */

  predicate Stopped(outcomes: seq<Outcome>) {
    outcomes != [] && outcomes[|outcomes| - 1].Transient?
  }

  // The outcomes of the rows attempted: all of them, or those up to the first transient failure.
  function Attempts(n: nat, publish: nat -> Outcome): (r: seq<Outcome>)
    ensures |r| <= n
    ensures |r| == n || Stopped(r)
  {
    if n == 0 then []
    else
      var before := Attempts(n - 1, publish);
      if Stopped(before) then before else before + [publish(n - 1)]
  }

  function SettleRow(t: Tables, c: Claimed, o: Outcome, start: nat, maxAttempts: nat): Tables {
    match o
    case Sent => t.(live := t.live - {c.id})
    case Transient(_) => t
    case Undeliverable(err) =>
      if Exhausted(c.row, maxAttempts)
      then Tables(t.live - {c.id}, t.dead[c.id := Buried(c.row, err)])
      else t.(live := t.live[c.id := Bumped(c.row, start)])
  }

  function Settle(t: Tables, batch: seq<Claimed>, outcomes: seq<Outcome>, start: nat, maxAttempts: nat): Tables
    requires |outcomes| <= |batch|
  {
    if outcomes == [] then t
    else
      var n := |outcomes| - 1;
      SettleRow(Settle(t, batch, outcomes[..n], start, maxAttempts), batch[n], outcomes[n], start, maxAttempts)
  }

  function SentIds(batch: seq<Claimed>, outcomes: seq<Outcome>): seq<nat>
    requires |outcomes| <= |batch|
  {
    if outcomes == [] then []
    else
      var n := |outcomes| - 1;
      var before := SentIds(batch, outcomes[..n]);
      if outcomes[n].Sent? then before + [batch[n].id] else before
  }

  function Failures(batch: seq<Claimed>, outcomes: seq<Outcome>): seq<Failure>
    requires |outcomes| <= |batch|
  {
    if outcomes == [] then []
    else
      var n := |outcomes| - 1;
      var before := Failures(batch, outcomes[..n]);
      if outcomes[n].Sent? then before else before + [Failure(batch[n], outcomes[n])]
  }

  function BumpIds(failed: seq<Failure>, maxAttempts: nat): seq<nat> {
    if failed == [] then []
    else
      var before, f := BumpIds(failed[..|failed| - 1], maxAttempts), failed[|failed| - 1];
      if f.outcome.Undeliverable? && !Exhausted(f.claimed.row, maxAttempts) then before + [f.claimed.id] else before
  }

  function DeadRows(failed: seq<Failure>, maxAttempts: nat): seq<Failure> {
    if failed == [] then []
    else
      var before, f := DeadRows(failed[..|failed| - 1], maxAttempts), failed[|failed| - 1];
      if f.outcome.Undeliverable? && Exhausted(f.claimed.row, maxAttempts) then before + [f] else before
  }

  // The lists that the attempted rows are sorted onto; only a transient failure is on none.
  datatype Lists = Lists(sent: seq<nat>, bump: seq<nat>, dead: seq<Failure>)

  function ListsOf(batch: seq<Claimed>, outcomes: seq<Outcome>, maxAttempts: nat): Lists
    requires |outcomes| <= |batch|
  {
    var failed := Failures(batch, outcomes);
    Lists(SentIds(batch, outcomes), BumpIds(failed, maxAttempts), DeadRows(failed, maxAttempts))
  }

  function Enlist(l: Lists, c: Claimed, o: Outcome, maxAttempts: nat): Lists {
    match o
    case Sent => l.(sent := l.sent + [c.id])
    case Transient(_) => l
    case Undeliverable(_) =>
      if Exhausted(c.row, maxAttempts) then l.(dead := l.dead + [Failure(c, o)]) else l.(bump := l.bump + [c.id])
  }

  function DeadIds(dead: seq<Failure>): seq<nat> {
    seq(|dead|, i requires 0 <= i < |dead| => dead[i].claimed.id)
  }

  /* ---- The loops ---- */

  lemma AppendOutcome(batch: seq<Claimed>, outcomes: seq<Outcome>, o: Outcome)
    requires |outcomes| < |batch|
    ensures SentIds(batch, outcomes + [o]) ==
            if o.Sent? then SentIds(batch, outcomes) + [batch[|outcomes|].id] else SentIds(batch, outcomes)
    ensures Failures(batch, outcomes + [o]) ==
            if o.Sent? then Failures(batch, outcomes) else Failures(batch, outcomes) + [Failure(batch[|outcomes|], o)]
  {
    assert (outcomes + [o])[..|outcomes|] == outcomes;
  }

  lemma OneMoreAttempt(batch: seq<Claimed>, publish: nat -> Outcome, i: nat)
    requires i < |batch| && |Attempts(i, publish)| == i && !Stopped(Attempts(i, publish))
    ensures |Attempts(i + 1, publish)| == i + 1
    ensures Stopped(Attempts(i + 1, publish)) <==> publish(i).Transient?
    ensures SentIds(batch, Attempts(i + 1, publish)) ==
            if publish(i).Sent? then SentIds(batch, Attempts(i, publish)) + [batch[i].id]
            else SentIds(batch, Attempts(i, publish))
    ensures Failures(batch, Attempts(i + 1, publish)) ==
            if publish(i).Sent? then Failures(batch, Attempts(i, publish))
            else Failures(batch, Attempts(i, publish)) + [Failure(batch[i], publish(i))]
  {
    var before := Attempts(i, publish);
    assert Attempts(i + 1, publish) == before + [publish(i)];
    AppendOutcome(batch, before, publish(i));
  }

  method PublishBatch(batch: seq<Claimed>, publish: nat -> Outcome) returns (sent: seq<nat>, failed: seq<Failure>)
    ensures var outcomes := Attempts(|batch|, publish);
      sent == SentIds(batch, outcomes) && failed == Failures(batch, outcomes)
  {
    sent, failed := [], [];
    var i := 0;
    while i < |batch|
      invariant 0 <= i <= |batch| && |Attempts(i, publish)| == i && !Stopped(Attempts(i, publish))
      invariant sent == SentIds(batch, Attempts(i, publish)) && failed == Failures(batch, Attempts(i, publish))
    {
      var o := publish(i);
      OneMoreAttempt(batch, publish, i);
      if o.Sent? {
        sent := sent + [batch[i].id];
      } else {
        failed := failed + [Failure(batch[i], o)];
        if o.Transient? {
          StoppedStaysStopped(i + 1, |batch|, publish);
          break;
        }
      }
      i := i + 1;
    }
  }

  lemma {:induction false} StoppedStaysStopped(m: nat, n: nat, publish: nat -> Outcome)
    requires m <= n && Stopped(Attempts(m, publish))
    ensures Attempts(n, publish) == Attempts(m, publish)
    decreases n
  {
    if m < n {
      StoppedStaysStopped(m, n - 1, publish);
    }
  }

  method ClassifyFailures(failed: seq<Failure>, maxAttempts: nat)
    returns (bump: seq<nat>, dead: seq<Failure>, transient: Option<string>)
    ensures bump == BumpIds(failed, maxAttempts) && dead == DeadRows(failed, maxAttempts)
    ensures transient.None? <==> forall i :: 0 <= i < |failed| ==> !failed[i].outcome.Transient?
    ensures transient.Some? ==> exists i :: 0 <= i < |failed| && failed[i].outcome == Transient(transient.value)
  {
    bump, dead, transient := [], [], None;
    for i := 0 to |failed|
      invariant bump == BumpIds(failed[..i], maxAttempts) && dead == DeadRows(failed[..i], maxAttempts)
      invariant transient.None? <==> forall j :: 0 <= j < i ==> !failed[j].outcome.Transient?
      invariant transient.Some? ==> exists j :: 0 <= j < i && failed[j].outcome == Transient(transient.value)
    {
      var f := failed[i];
      assert failed[..i + 1][..i] == failed[..i];
      if f.outcome.Transient? {
        transient := Some(f.outcome.err);
        assert failed[i].outcome == Transient(transient.value);
      } else if f.outcome.Undeliverable? && f.claimed.row.attempts + 1 >= maxAttempts {
        dead := dead + [f];
      } else if f.outcome.Undeliverable? {
        bump := bump + [f.claimed.id];
      }
    }
    assert failed[..|failed|] == failed;
  }

  /* ---- Every row is settled exactly once ---- */

  predicate Distinct(batch: seq<Claimed>) {
    forall i, j :: 0 <= i < j < |batch| ==> batch[i].id != batch[j].id
  }

  // The ids of the rows that failed transiently: at most the last one attempted.
  function TransientIds(batch: seq<Claimed>, outcomes: seq<Outcome>): seq<nat>
    requires |outcomes| <= |batch|
  {
    if Stopped(outcomes) then [batch[|outcomes| - 1].id] else []
  }

  predicate OnlyLastTransient(outcomes: seq<Outcome>) {
    forall i :: 0 <= i < |outcomes| - 1 ==> !outcomes[i].Transient?
  }

  // Publishing stops at the first transient failure and nowhere else.
  lemma {:induction false} AttemptsInOrder(n: nat, publish: nat -> Outcome)
    ensures var r := Attempts(n, publish);
      OnlyLastTransient(r) && forall i :: 0 <= i < |r| ==> r[i] == publish(i)
  {
    if n > 0 {
      AttemptsInOrder(n - 1, publish);
    }
  }

  // What one more attempt adds to the lists.
  lemma ListsOneMore(batch: seq<Claimed>, outcomes: seq<Outcome>, maxAttempts: nat)
    requires 0 < |outcomes| <= |batch|
    ensures var n := |outcomes| - 1;
      ListsOf(batch, outcomes, maxAttempts) ==
      Enlist(ListsOf(batch, outcomes[..n], maxAttempts), batch[n], outcomes[n], maxAttempts)
  {
    var n := |outcomes| - 1;
    var failed, f := Failures(batch, outcomes[..n]), Failure(batch[n], outcomes[n]);
    assert (failed + [f])[..|failed|] == failed;
  }

  lemma AppendDead(dead: seq<Failure>, f: Failure)
    ensures DeadIds(dead + [f]) == DeadIds(dead) + [f.claimed.id]
    ensures BuriedRows(dead + [f]) == BuriedRows(dead)[f.claimed.id := Buried(f.claimed.row, ErrorOf(f.outcome))]
  {
    assert (dead + [f])[..|dead|] == dead;
  }

  // The ids on the lists, with those that failed transiently.
  function OnLists(l: Lists, transient: seq<nat>): multiset<nat> {
    multiset(l.sent) + multiset(l.bump) + multiset(DeadIds(l.dead)) + multiset(transient)
  }

  function Split(batch: seq<Claimed>, outcomes: seq<Outcome>, maxAttempts: nat): multiset<nat>
    requires |outcomes| <= |batch|
  {
    OnLists(ListsOf(batch, outcomes, maxAttempts), TransientIds(batch, outcomes))
  }

  lemma EnlistAddsOne(l: Lists, c: Claimed, o: Outcome, maxAttempts: nat)
    ensures OnLists(Enlist(l, c, o, maxAttempts), if o.Transient? then [c.id] else []) ==
            OnLists(l, []) + multiset{c.id}
  {
    AppendDead(l.dead, Failure(c, o));
  }

  lemma SplitOneMore(batch: seq<Claimed>, outcomes: seq<Outcome>, maxAttempts: nat)
    requires 0 < |outcomes| <= |batch| && !Stopped(outcomes[..|outcomes| - 1])
    ensures var n := |outcomes| - 1;
      Split(batch, outcomes, maxAttempts) == Split(batch, outcomes[..n], maxAttempts) + multiset{batch[n].id}
  {
    var n := |outcomes| - 1;
    ListsOneMore(batch, outcomes, maxAttempts);
    EnlistAddsOne(ListsOf(batch, outcomes[..n], maxAttempts), batch[n], outcomes[n], maxAttempts);
  }

  // Sent, bumped, dead, transient and unattempted rows together are the batch, each row once.
  lemma {:induction false} BatchSplit(batch: seq<Claimed>, outcomes: seq<Outcome>, maxAttempts: nat)
    requires |outcomes| <= |batch| && OnlyLastTransient(outcomes)
    ensures Split(batch, outcomes, maxAttempts) + multiset(Ids(batch[|outcomes|..])) == multiset(Ids(batch))
    decreases |outcomes|
  {
    var k := |outcomes|;
    if k == 0 {
      assert batch[0..] == batch && Split(batch, outcomes, maxAttempts) == multiset{};
    } else {
      BatchSplit(batch, outcomes[..k - 1], maxAttempts);
      SplitOneMore(batch, outcomes, maxAttempts);
      FirstId(batch[k - 1..]);
      assert batch[k - 1..][1..] == batch[k..];
    }
  }

  lemma FirstId(batch: seq<Claimed>)
    requires batch != []
    ensures multiset(Ids(batch)) == multiset{batch[0].id} + multiset(Ids(batch[1..]))
  {
    assert Ids(batch) == [batch[0].id] + Ids(batch[1..]);
  }

  // Rows are settled independently: what becomes of id depends on its own outcome alone.
  lemma {:induction false} SettleAt(
    t: Tables, batch: seq<Claimed>, outcomes: seq<Outcome>, start: nat, maxAttempts: nat, i: nat)
    requires |outcomes| <= |batch| && Distinct(batch) && i < |outcomes|
    ensures SameAt(Settle(t, batch, outcomes, start, maxAttempts),
                   SettleRow(t, batch[i], outcomes[i], start, maxAttempts), batch[i].id)
    decreases |outcomes|
  {
    var n := |outcomes| - 1;
    if i < n {
      SettleAt(t, batch, outcomes[..n], start, maxAttempts, i);
    } else {
      SettleElsewhere(t, batch, outcomes[..n], start, maxAttempts, batch[i].id);
    }
  }

  lemma {:induction false} SettleElsewhere(
    t: Tables, batch: seq<Claimed>, outcomes: seq<Outcome>, start: nat, maxAttempts: nat, id: nat)
    requires |outcomes| <= |batch|
    requires forall i :: 0 <= i < |outcomes| ==> batch[i].id != id
    ensures SameAt(Settle(t, batch, outcomes, start, maxAttempts), t, id)
    decreases |outcomes|
  {
    if outcomes != [] {
      SettleElsewhere(t, batch, outcomes[..|outcomes| - 1], start, maxAttempts, id);
    }
  }

  predicate ListsInOrder(l: Lists, bound: nat) {
    && InOrder(l.sent) && InOrder(l.bump) && InOrder(DeadIds(l.dead))
    && Below(l.sent, bound) && Below(l.bump, bound) && Below(DeadIds(l.dead), bound)
  }

  lemma AppendInOrder(ids: seq<nat>, id: nat, bound: nat)
    requires InOrder(ids) && Below(ids, id) && id < bound
    ensures InOrder(ids + [id]) && Below(ids + [id], bound) && Below(ids, bound)
  {
  }

  lemma EnlistInOrder(l: Lists, c: Claimed, o: Outcome, maxAttempts: nat, bound: nat)
    requires ListsInOrder(l, c.id) && c.id < bound
    ensures ListsInOrder(Enlist(l, c, o, maxAttempts), bound)
  {
    AppendDead(l.dead, Failure(c, o));
    AppendInOrder(l.sent, c.id, bound);
    AppendInOrder(l.bump, c.id, bound);
    AppendInOrder(DeadIds(l.dead), c.id, bound);
  }

  // Each list keeps the order of the batch.
  lemma {:induction false} ListsKeepOrder(batch: seq<Claimed>, outcomes: seq<Outcome>, maxAttempts: nat, bound: nat)
    requires |outcomes| <= |batch| && InOrder(Ids(batch)) && Below(Ids(batch)[..|outcomes|], bound)
    ensures ListsInOrder(ListsOf(batch, outcomes, maxAttempts), bound)
    decreases |outcomes|
  {
    if outcomes != [] {
      var n := |outcomes| - 1;
      assert Ids(batch)[..n + 1][n] == batch[n].id;
      ListsKeepOrder(batch, outcomes[..n], maxAttempts, batch[n].id);
      ListsOneMore(batch, outcomes, maxAttempts);
      EnlistInOrder(ListsOf(batch, outcomes[..n], maxAttempts), batch[n], outcomes[n], maxAttempts, bound);
    }
  }

  /* ---- The bulk statements ---- */

  // The rows claimed are live, and as they were when claimed.
  predicate Holding(t: Tables, batch: seq<Claimed>) {
    Distinct(batch) && forall i :: 0 <= i < |batch| ==> batch[i].id in t.live && t.live[batch[i].id] == batch[i].row
  }

  function BuriedRows(dead: seq<Failure>): map<nat, DeadRow> {
    if dead == [] then map[]
    else
      var f := dead[|dead| - 1];
      BuriedRows(dead[..|dead| - 1])[f.claimed.id := Buried(f.claimed.row, ErrorOf(f.outcome))]
  }

  function ErrorOf(o: Outcome): string {
    if o.Sent? then "" else o.err
  }

  lemma BuryOneMore(dead: map<nat, DeadRow>, rows: seq<Failure>, i: nat)
    requires i < |rows|
    ensures DeadIds(rows[..i + 1]) == DeadIds(rows[..i]) + [rows[i].claimed.id]
    ensures dead + BuriedRows(rows[..i + 1]) ==
            (dead + BuriedRows(rows[..i]))[rows[i].claimed.id := Buried(rows[i].claimed.row, ErrorOf(rows[i].outcome))]
  {
    assert rows[..i + 1] == rows[..i] + [rows[i]];
    AppendDead(rows[..i], rows[i]);
  }

  // DELETE, UPDATE and dead-letter over the lists, each in one go.
  function Bulk(t: Tables, l: Lists, start: nat): Tables {
    Tables(map id | id in t.live && id !in l.sent && id !in DeadIds(l.dead) ::
             if id in l.bump then Bumped(t.live[id], start) else t.live[id],
           t.dead + BuriedRows(l.dead))
  }

  predicate Unlisted(l: Lists, id: nat) {
    id !in l.sent && id !in l.bump && id !in DeadIds(l.dead) && id !in BuriedRows(l.dead)
  }

  // The row is on the list its outcome asks for, and on no other.
  predicate ListedAs(l: Lists, c: Claimed, o: Outcome, maxAttempts: nat) {
    && (c.id in l.sent <==> o.Sent?)
    && (c.id in l.bump <==> o.Undeliverable? && !Exhausted(c.row, maxAttempts))
    && (c.id in DeadIds(l.dead) <==> o.Undeliverable? && Exhausted(c.row, maxAttempts))
    && (c.id in BuriedRows(l.dead) <==> o.Undeliverable? && Exhausted(c.row, maxAttempts))
    && (c.id in BuriedRows(l.dead) ==> BuriedRows(l.dead)[c.id] == Buried(c.row, o.err))
  }

  lemma EnlistLists(l: Lists, c: Claimed, o: Outcome, maxAttempts: nat)
    requires Unlisted(l, c.id)
    ensures ListedAs(Enlist(l, c, o, maxAttempts), c, o, maxAttempts)
  {
    AppendDead(l.dead, Failure(c, o));
  }

  lemma EnlistKeepsListed(l: Lists, c: Claimed, o: Outcome, other: Claimed, q: Outcome, maxAttempts: nat)
    requires ListedAs(l, c, o, maxAttempts) && c.id != other.id
    ensures ListedAs(Enlist(l, other, q, maxAttempts), c, o, maxAttempts)
  {
    AppendDead(l.dead, Failure(other, q));
  }

  lemma {:induction false} ListedElsewhere(batch: seq<Claimed>, outcomes: seq<Outcome>, maxAttempts: nat, id: nat)
    requires |outcomes| <= |batch|
    requires forall i :: 0 <= i < |outcomes| ==> batch[i].id != id
    ensures Unlisted(ListsOf(batch, outcomes, maxAttempts), id)
    decreases |outcomes|
  {
    if outcomes != [] {
      var n := |outcomes| - 1;
      ListsOneMore(batch, outcomes, maxAttempts);
      AppendDead(ListsOf(batch, outcomes[..n], maxAttempts).dead, Failure(batch[n], outcomes[n]));
      ListedElsewhere(batch, outcomes[..n], maxAttempts, id);
    }
  }

  // The i-th attempted row is on exactly the list its own outcome puts it on.
  lemma {:induction false} ListedAt(batch: seq<Claimed>, outcomes: seq<Outcome>, maxAttempts: nat, i: nat)
    requires i < |outcomes| <= |batch| && Distinct(batch)
    ensures ListedAs(ListsOf(batch, outcomes, maxAttempts), batch[i], outcomes[i], maxAttempts)
    decreases |outcomes|
  {
    var n := |outcomes| - 1;
    ListsOneMore(batch, outcomes, maxAttempts);
    var l := ListsOf(batch, outcomes[..n], maxAttempts);
    if i < n {
      ListedAt(batch, outcomes[..n], maxAttempts, i);
      EnlistKeepsListed(l, batch[i], outcomes[i], batch[n], outcomes[n], maxAttempts);
    } else {
      ListedElsewhere(batch, outcomes[..n], maxAttempts, batch[n].id);
      EnlistLists(l, batch[n], outcomes[n], maxAttempts);
    }
  }

  lemma BulkAt(t: Tables, batch: seq<Claimed>, outcomes: seq<Outcome>, start: nat, maxAttempts: nat, id: nat)
    requires |outcomes| <= |batch| && Holding(t, batch)
    ensures SameAt(Bulk(t, ListsOf(batch, outcomes, maxAttempts), start),
                   Settle(t, batch, outcomes, start, maxAttempts), id)
  {
    if i :| 0 <= i < |outcomes| && batch[i].id == id {
      ListedAt(batch, outcomes, maxAttempts, i);
      SettleAt(t, batch, outcomes, start, maxAttempts, i);
    } else {
      ListedElsewhere(batch, outcomes, maxAttempts, id);
      SettleElsewhere(t, batch, outcomes, start, maxAttempts, id);
    }
  }

  // The bulk statements settle the batch exactly as row-by-row settling does.
  lemma BulkSettles(t: Tables, batch: seq<Claimed>, outcomes: seq<Outcome>, start: nat, maxAttempts: nat)
    requires |outcomes| <= |batch| && Holding(t, batch)
    ensures Bulk(t, ListsOf(batch, outcomes, maxAttempts), start) == Settle(t, batch, outcomes, start, maxAttempts)
  {
    var bulk := Bulk(t, ListsOf(batch, outcomes, maxAttempts), start);
    var each := Settle(t, batch, outcomes, start, maxAttempts);
    forall id: nat ensures SameAt(bulk, each, id) {
      BulkAt(t, batch, outcomes, start, maxAttempts, id);
    }
    SameEverywhere(bulk, each);
  }

  lemma SameEverywhere(r: Tables, q: Tables)
    requires forall id: nat :: SameAt(r, q, id)
    ensures r == q
  {
    assert forall id :: id in r.live || id in q.live ==> SameAt(r, q, id);
    assert r.live == q.live;
    assert forall id :: id in r.dead || id in q.dead ==> SameAt(r, q, id);
    assert r.dead == q.dead;
  }

  datatype DrainResult = DrainResult(sent: nat, full: bool, err: Option<string>)

  class OutboxTables {
    var tables: Tables

    constructor (tables: Tables)
      ensures this.tables == tables
    {
      this.tables := tables;
    }

    method DeleteOutbox(ids: seq<nat>)
      modifies this`tables
      ensures tables == old(tables).(live := map id | id in old(tables).live && id !in ids :: old(tables).live[id])
    {
      tables := tables.(live := map id | id in tables.live && id !in ids :: tables.live[id]);
    }

    method BumpAttempts(ids: seq<nat>, start: nat)
      modifies this`tables
      ensures tables == old(tables).(live := map id | id in old(tables).live ::
                if id in ids then Bumped(old(tables).live[id], start) else old(tables).live[id])
    {
      tables := tables.(live := map id | id in tables.live ::
                  if id in ids then Bumped(tables.live[id], start) else tables.live[id]);
    }

    // Inserts the poison rows one by one, then deletes them from the outbox.
    method DeadLetter(rows: seq<Failure>)
      modifies this`tables
      ensures tables.dead == old(tables).dead + BuriedRows(rows)
      ensures tables.live == map id | id in old(tables).live && id !in DeadIds(rows) :: old(tables).live[id]
    {
      var ids := [];
      for i := 0 to |rows|
        invariant tables.live == old(tables).live
        invariant tables.dead == old(tables).dead + BuriedRows(rows[..i])
        invariant ids == DeadIds(rows[..i])
      {
        var f := rows[i];
        BuryOneMore(old(tables).dead, rows, i);
        tables := tables.(dead := tables.dead[f.claimed.id := Buried(f.claimed.row, ErrorOf(f.outcome))]);
        ids := ids + [f.claimed.id];
      }
      assert rows[..|rows|] == rows;
      DeleteOutbox(ids);
    }

    method SettleInBulk(l: Lists, start: nat)
      modifies this`tables
      ensures tables == Bulk(old(tables), l, start)
    {
      DeleteOutbox(l.sent);
      BumpAttempts(l.bump, start);
      DeadLetter(l.dead);
    }

    // The due rows that nobody else holds, smallest ids first.
    method ClaimOutbox(n: nat, start: nat, locked: set<nat>) returns (batch: seq<Claimed>)
      ensures IsClaim(tables.live, locked, start, batch, n)
      ensures forall id :: id in tables.live && tables.live[id].due <= start && id !in locked && |batch| < n ==>
        id in Ids(batch)
      ensures forall i :: 0 <= i < |batch| ==> batch[i].row.due <= start && batch[i].id !in locked
    {
      batch := [];
      var left := set id | id in tables.live && tables.live[id].due <= start && id !in locked;
      while |batch| < n && left != {}
        invariant |batch| <= n && Claiming(tables.live, locked, start, batch, left)
        decreases |left|
      {
        ghost var least := Least(left);
        var id :| id in left && forall k :: k in left ==> id <= k;
        ClaimNext(tables.live, locked, start, batch, left, id);
        batch := batch + [Claimed(id, tables.live[id])];
        left := left - {id};
      }
    }

    // locked are the rows that other transactions hold. A failed begin or claim ends the drain; a later failed
    // statement or commit rolls everything back, and what was published stays published.
    method DrainBatch(batchSize: nat, maxAttempts: nat, publish: nat -> Outcome, start: nat, locked: set<nat>,
                      claimFails: Option<string>, commitFails: Option<string>)
      returns (result: DrainResult, ghost batch: seq<Claimed>)
      modifies this`tables
      ensures claimFails.None? ==> IsClaim(old(tables).live, locked, start, batch, batchSize)
      ensures var outcomes := Attempts(|batch|, publish);
        if claimFails.Some?
        then batch == [] && tables == old(tables) && result == DrainResult(0, false, claimFails)
        else if batch != [] && commitFails.Some?
        then tables == old(tables) && result == DrainResult(0, false, commitFails)
        else
          && tables == Settle(old(tables), batch, outcomes, start, maxAttempts)
          && result.sent == |SentIds(batch, outcomes)|
          && result.full == (batch != [] && |batch| == batchSize)
          && (result.err.None? <==> !Stopped(outcomes))
          && (result.err.Some? ==> outcomes[|outcomes| - 1] == Transient(result.err.value))
    {
      if claimFails.Some? {
        return DrainResult(0, false, claimFails), [];
      }
      var claimed := ClaimOutbox(batchSize, start, locked);
      batch := claimed;
      if claimed == [] {
        return DrainResult(0, false, None), batch;
      }
      ClaimIsHolding(tables, locked, start, claimed, batchSize);
      var begin := tables;
      var sent, failed := PublishBatch(claimed, publish);
      var bump, dead, transient := ClassifyFailures(failed, maxAttempts);
      ghost var outcomes := Attempts(|claimed|, publish);
      AttemptsInOrder(|claimed|, publish);
      TransientFailure(claimed, outcomes);
      BulkSettles(tables, claimed, outcomes, start, maxAttempts);
      SettleInBulk(Lists(sent, bump, dead), start);
      if commitFails.Some? {
        tables := begin;
        return DrainResult(0, false, commitFails), batch;
      }
      result := DrainResult(|sent|, |claimed| == batchSize, transient);
    }
  }

  lemma {:induction false} TransientFailure(batch: seq<Claimed>, outcomes: seq<Outcome>)
    requires |outcomes| <= |batch| && OnlyLastTransient(outcomes)
    ensures outcomes == [] ==> Failures(batch, outcomes) == []
    ensures var failed := Failures(batch, outcomes);
      && ((forall i :: 0 <= i < |failed| ==> !failed[i].outcome.Transient?) <==> !Stopped(outcomes))
      && (forall i :: 0 <= i < |failed| && failed[i].outcome.Transient? ==>
            failed[i].outcome == outcomes[|outcomes| - 1])
    decreases |outcomes|
  {
    if outcomes != [] {
      var n := |outcomes| - 1;
      var failed := Failures(batch, outcomes[..n]);
      TransientFailure(batch, outcomes[..n]);
      assert outcomes == outcomes[..n] + [outcomes[n]];
      AppendOutcome(batch, outcomes[..n], outcomes[n]);
      if Stopped(outcomes) {
        assert Failures(batch, outcomes)[|failed|].outcome.Transient?;
      }
    }
  }
}
