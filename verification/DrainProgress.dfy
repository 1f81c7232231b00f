/** Why the relay's "full claim, drain again at once" loop ends: every settled row spends from a finite budget. */
module DrainProgress {
  import opened Sums
  import opened OutboxDrain
  import opened OutboxProtocol
  import Relay

  function Left(row: Row, maxAttempts: nat): nat {
    if row.attempts < maxAttempts then maxAttempts - row.attempts else 0
  }

  function LeftPerRow(live: map<nat, Row>, maxAttempts: nat): map<nat, nat> {
    map id | id in live :: Left(live[id], maxAttempts)
  }

  // The attempts that the live rows have left between them.
  ghost function Budget(live: map<nat, Row>, maxAttempts: nat): nat {
    Sum(LeftPerRow(live, maxAttempts))
  }

  function Spent(outcomes: seq<Outcome>): nat {
    if outcomes == [] then 0
    else Spent(outcomes[..|outcomes| - 1]) + if outcomes[|outcomes| - 1].Transient? then 0 else 1
  }

  // Spent counts the rows sent, bumped and buried.
  lemma {:induction false} SpentIsSettled(batch: seq<Claimed>, outcomes: seq<Outcome>, maxAttempts: nat)
    requires |outcomes| <= |batch|
    ensures var l := ListsOf(batch, outcomes, maxAttempts);
      Spent(outcomes) == |l.sent| + |l.bump| + |l.dead|
    decreases |outcomes|
  {
    if outcomes != [] {
      ListsOneMore(batch, outcomes, maxAttempts);
      SpentIsSettled(batch, outcomes[..|outcomes| - 1], maxAttempts);
    }
  }

  lemma {:induction false} SpentAll(outcomes: seq<Outcome>)
    requires OnlyLastTransient(outcomes) && !Stopped(outcomes)
    ensures Spent(outcomes) == |outcomes|
    decreases |outcomes|
  {
    if outcomes != [] {
      SpentAll(outcomes[..|outcomes| - 1]);
    }
  }

  lemma RowSpends(t: Tables, c: Claimed, o: Outcome, start: nat, maxAttempts: nat)
    requires c.id in t.live && t.live[c.id] == c.row && c.row.attempts < maxAttempts
    ensures Budget(SettleRow(t, c, o, start, maxAttempts).live, maxAttempts) + (if o.Transient? then 0 else 1)
            <= Budget(t.live, maxAttempts)
  {
    var m := LeftPerRow(t.live, maxAttempts);
    var live' := SettleRow(t, c, o, start, maxAttempts).live;
    if o.Sent? || (o.Undeliverable? && Exhausted(c.row, maxAttempts)) {
      SumWithout(m, c.id);
      assert LeftPerRow(live', maxAttempts) == m - {c.id};
    } else if o.Undeliverable? {
      SumReplaced(m, c.id, maxAttempts - c.row.attempts - 1);
      assert LeftPerRow(live', maxAttempts) == m[c.id := maxAttempts - c.row.attempts - 1];
    }
  }

  lemma {:induction false} SettleSpends(
    t: Tables, batch: seq<Claimed>, outcomes: seq<Outcome>, start: nat, maxAttempts: nat)
    requires |outcomes| <= |batch| && Holding(t, batch)
    requires forall i :: 0 <= i < |batch| ==> batch[i].row.attempts < maxAttempts
    ensures Budget(Settle(t, batch, outcomes, start, maxAttempts).live, maxAttempts) + Spent(outcomes)
            <= Budget(t.live, maxAttempts)
    decreases |outcomes|
  {
    if outcomes != [] {
      var n := |outcomes| - 1;
      SettleSpends(t, batch, outcomes[..n], start, maxAttempts);
      SettleElsewhere(t, batch, outcomes[..n], start, maxAttempts, batch[n].id);
      RowSpends(Settle(t, batch, outcomes[..n], start, maxAttempts), batch[n], outcomes[n], start, maxAttempts);
    }
  }

  // A commit after which Run drains again at once: a full claim and no error.
  predicate FullDrain(p: Params, s: State, l: Label) {
    && l.Commit? && l.d in s.drains
    && |s.drains[l.d].batch| == p.batchSize && !Stopped(s.drains[l.d].outcomes)
  }

  // That is what Run does with the drain's result.
  lemma FullDrainsAgain(p: Params, s: State, d: nat, results: seq<DrainResult>, result: DrainResult, poll: int)
    requires 0 < p.batchSize && Enabled(p, s, Commit(d))
    requires result.full == (s.drains[d].batch != [] && |s.drains[d].batch| == p.batchSize)
    requires result.err.Some? <==> Stopped(s.drains[d].outcomes)
    ensures FullDrain(p, s, Commit(d)) <==> Relay.ActionAfter(results + [result], poll) == Relay.DrainAgain
  {
  }

  lemma StepSpends(p: Params, s: State, l: Label)
    requires Inv(p, s) && Enabled(p, s, l) && !l.Insert?
    ensures Budget(Apply(p, s, l).tables.live, p.maxAttempts) + (if FullDrain(p, s, l) then p.batchSize else 0)
            <= Budget(s.tables.live, p.maxAttempts)
    ensures l.Commit? ==>
      Budget(Apply(p, s, l).tables.live, p.maxAttempts) + Spent(s.drains[l.d].outcomes)
      <= Budget(s.tables.live, p.maxAttempts)
  {
    if l.Commit? {
      var drain := s.drains[l.d];
      assert DrainInv(s, drain);
      forall i | 0 <= i < |drain.batch| ensures drain.batch[i].row.attempts < p.maxAttempts {
        assert PlacedOnce(s, drain.batch[i].id);
      }
      SettleSpends(s.tables, drain.batch, drain.outcomes, drain.start, p.maxAttempts);
      if !Stopped(drain.outcomes) {
        SpentAll(drain.outcomes);
      }
    }
  }

  // A stretch of steps of any relays, from one state to another.
  ghost predicate Stretch(p: Params, s: State, labels: seq<Label>, end: State)
    decreases |labels|
  {
    if labels == [] then end == s
    else Enabled(p, s, labels[0]) && Stretch(p, Apply(p, s, labels[0]), labels[1..], end)
  }

  function FullDrains(p: Params, s: State, labels: seq<Label>): nat
    decreases |labels|
  {
    if labels == [] || !Enabled(p, s, labels[0]) then 0
    else (if FullDrain(p, s, labels[0]) then 1 else 0) + FullDrains(p, Apply(p, s, labels[0]), labels[1..])
  }

  // The rows claimed by those drains.
  function FullRows(p: Params, s: State, labels: seq<Label>): nat
    decreases |labels|
  {
    if labels == [] || !Enabled(p, s, labels[0]) then 0
    else (if FullDrain(p, s, labels[0]) then p.batchSize else 0) + FullRows(p, Apply(p, s, labels[0]), labels[1..])
  }

  lemma {:induction false} FullRowsPerDrain(p: Params, s: State, labels: seq<Label>)
    ensures FullRows(p, s, labels) == p.batchSize * FullDrains(p, s, labels)
    decreases |labels|
  {
    if labels != [] && Enabled(p, s, labels[0]) {
      var next := Apply(p, s, labels[0]);
      FullRowsPerDrain(p, next, labels[1..]);
      Distribute(p.batchSize, FullDrains(p, next, labels[1..]));
    }
  }

  lemma Distribute(a: nat, b: nat)
    ensures a * (1 + b) == a + a * b
  {
  }

  lemma {:induction false} FullRowsAreBounded(p: Params, s: State, labels: seq<Label>, end: State)
    requires 0 < p.maxAttempts && Inv(p, s) && Stretch(p, s, labels, end)
    requires forall i :: 0 <= i < |labels| ==> !labels[i].Insert?
    ensures FullRows(p, s, labels) + Budget(end.tables.live, p.maxAttempts) <= Budget(s.tables.live, p.maxAttempts)
    decreases |labels|
  {
    if labels != [] {
      StepKeepsInv(p, s, labels[0]);
      StepSpends(p, s, labels[0]);
      FullRowsAreBounded(p, Apply(p, s, labels[0]), labels[1..], end);
    }
  }

  // While no event is inserted, the drains that make a relay drain again at once, of all relays
  // together, times the batch size are at most the attempts left.
  lemma RedrainLoopEnds(p: Params, run: seq<State>, labels: seq<Label>, end: State)
    requires 0 < p.maxAttempts && Behavior(p, run) && Stretch(p, Final(run), labels, end)
    requires forall i :: 0 <= i < |labels| ==> !labels[i].Insert?
    ensures p.batchSize * FullDrains(p, Final(run), labels) + Budget(end.tables.live, p.maxAttempts)
            <= Budget(Final(run).tables.live, p.maxAttempts)
  {
    ReachableInv(p, run);
    FullRowsAreBounded(p, Final(run), labels, end);
    FullRowsPerDrain(p, Final(run), labels);
  }
}
