/**
 Cache-aside reads and tombstoning writes of one product id, interleaved freely.
 Any number of service instances, readers, flights and writers run at once; each
 label below is one atomic effect on the database, the cache or the clock.
 */
module CacheProtocol {
  import opened Domain
  import opened Cache

  datatype Params = Params(ttl: nat, negTTL: nat, loadTimeout: nat)

  // A committed state of the row; None is an absent row.
  datatype Version = Version(at: nat, row: Option<Product>)

  // src is the index in the row's history of the value, at the moment it was read.
  datatype Source = Source(src: nat, at: nat)

  datatype Result = Failed | Value(row: Option<Product>, src: nat)

  datatype Phase =
    | Started
    | Missed(guard: Option<Entry>)                                  // None: the Get failed, so no fill
    | Loaded(guard: Option<Entry>, row: Option<Product>, from: Source)
    | Finished(result: Result)

  // fence is the newest write whose invalidation had completed when the flight began.
  datatype Flight = Flight(instance: nat, began: nat, fence: nat, phase: Phase)

  // fence is the newest write whose invalidation had completed when the read began, and stale the flight of the
  // reader's instance that had by then loaded a row older than that, if there was one.
  datatype Reader =
    | Reading(instance: nat, fence: nat, stale: Option<nat>)
    | Waiting(flight: nat, fence: nat, stale: Option<nat>, led: bool)
    | ReturnedHit(fence: nat, result: Result)
    | Returned(flight: nat, fence: nat, stale: Option<nat>, led: bool, result: Result)

  datatype State = State(
    now: nat,
    history: seq<Version>,        // every committed row, oldest first; the last one is the database
    cell: Option<Stored>,
    origin: Source,               // where the value in cell was read from
    pending: set<nat>,            // writes whose invalidation is still to come
    lost: set<nat>,               // writes whose invalidation failed, or that never had one
    fence: nat,                   // the newest write whose invalidation completed
    texts: set<nat>,              // random texts drawn by tombstones so far
    flights: map<nat, Flight>,
    calls: map<nat, nat>,         // per instance, the flight that new misses join
    readers: map<nat, Reader>)
  {
    function Last(): int { |history| - 1 }
  }

  datatype Label =
    | Tick(d: nat)
    | Create(p: Product)
    | Write(row: Option<Product>)
    | Invalidate(w: nat, text: nat)
    | LoseInvalidation(w: nat)
    | Read(r: nat, instance: nat, getFails: bool)
    | Join(r: nat, f: nat)
    | FlightGet(f: nat, getFails: bool)
    | FlightLoad(f: nat, loadFails: bool)
    | FlightFill(f: nat)
    | FlightSkipFill(f: nat)
    | Return(r: nat)

  ghost predicate Init(s: State) {
    && (exists row :: s.history == [Version(s.now, row)])
    && (s.cell.Some? ==> s.cell.value.raw.Garbage?)
    && s.pending == {} && s.lost == {} && s.fence == 0 && s.texts == {}
    && s.flights == map[] && s.calls == map[] && s.readers == map[]
  }

  predicate FlightLabel(l: Label) {
    l.FlightGet? || l.FlightLoad? || l.FlightFill? || l.FlightSkipFill?
  }

  predicate Enabled(p: Params, s: State, l: Label) {
    |s.history| > 0 &&
    match l
    case Tick(_) => true
    case Create(_) => s.history[s.Last()].row.None?
    case Write(_) => s.history[s.Last()].row.Some?
    case Invalidate(w, text) => (w in s.pending || w in s.lost) && text !in s.texts
    case LoseInvalidation(w) => w in s.pending
    case Read(r, _, _) => r !in s.readers
    case Join(r, f) =>
      && r in s.readers && s.readers[r].Reading?
      && (if s.readers[r].instance in s.calls then f == s.calls[s.readers[r].instance] else f !in s.flights)
    case FlightGet(f, _) => f in s.flights && s.flights[f].phase.Started?
    case FlightLoad(f, _) => f in s.flights && s.flights[f].phase.Missed?
    // the fill carries the flight's context, so it takes effect before the deadline or not at all
    case FlightFill(f) =>
      && f in s.flights && s.flights[f].phase.Loaded? && s.flights[f].phase.guard.Some?
      && s.now <= s.flights[f].began + p.loadTimeout
    case FlightSkipFill(f) => f in s.flights && s.flights[f].phase.Loaded?
    case Return(r) =>
      && r in s.readers && s.readers[r].Waiting? && s.readers[r].flight in s.flights
      && s.flights[s.readers[r].flight].phase.Finished?
  }

  function Commit(s: State, row: Option<Product>): State {
    s.(history := s.history + [Version(s.now, row)])
  }

  function SetPhase(s: State, f: nat, phase: Phase): State
    requires f in s.flights
  {
    var fl := s.flights[f];
    var s := s.(flights := s.flights[f := fl.(phase := phase)]);
    if phase.Finished? then s.(calls := s.calls - {fl.instance}) else s
  }

  function ResultOf(entry: Entry, src: nat): Result
    requires entry.Hit()
  {
    Value(if entry.Found? then Some(entry.product) else None, src)
  }

  function RawOf(row: Option<Product>): Raw {
    if row.Some? then Payload(row.value) else Missing
  }

  function Life(p: Params, row: Option<Product>): nat {
    if row.Some? then p.ttl else p.negTTL
  }

  function Get(s: State, getFails: bool): Entry {
    if getFails then NoKey else Lookup(s.cell, s.now)
  }

  // The flight has loaded a row that is older than a write whose invalidation has completed.
  predicate HoldsPassedRow(s: State, f: nat) {
    f in s.flights && s.flights[f].phase.Loaded? && s.flights[f].phase.from.src < s.fence
  }

  // The flight that a miss of the instance would join, if it holds such a row.
  function StaleFlight(s: State, instance: nat): Option<nat> {
    if instance in s.calls && HoldsPassedRow(s, s.calls[instance]) then Some(s.calls[instance]) else None
  }

  function Apply(p: Params, s: State, l: Label): State
    requires Enabled(p, s, l)
  {
    match l
    case Tick(d) => s.(now := s.now + d)
    // A create never tombstones. It needs none when the id was never looked up.
    case Create(product) =>
      var w := |s.history|;
      var s' := Commit(s, Some(product));
      if s.cell.None? && s.flights == map[]
      then s'.(fence := w)
      else s'.(lost := s.lost + {w})
    case Write(row) => Commit(s, row).(pending := s.pending + {|s.history|})
    case Invalidate(w, text) =>
      s.(cell := Some(Stored(Tombstone(text), s.now + Px(p.ttl))), texts := s.texts + {text},
         pending := s.pending - {w}, lost := s.lost - {w}, fence := Max(s.fence, w))
    case LoseInvalidation(w) => s.(pending := s.pending - {w}, lost := s.lost + {w})
    case Read(r, instance, getFails) =>
      var entry := Get(s, getFails);
      if entry.Hit()
      then s.(readers := s.readers[r := ReturnedHit(s.fence, ResultOf(entry, s.origin.src))])
      else s.(readers := s.readers[r := Reading(instance, s.fence, StaleFlight(s, instance))])
    case Join(r, f) =>
      var Reading(instance, fence, stale) := s.readers[r];
      if instance in s.calls
      then s.(readers := s.readers[r := Waiting(f, fence, stale, false)])
      else s.(readers := s.readers[r := Waiting(f, fence, stale, true)],
              flights := s.flights[f := Flight(instance, s.now, s.fence, Started)],
              calls := s.calls[instance := f])
    case FlightGet(f, getFails) =>
      var entry := Get(s, getFails);
      if entry.Hit() then SetPhase(s, f, Finished(ResultOf(entry, s.origin.src)))
      else SetPhase(s, f, Missed(if getFails then None else Some(entry)))
    case FlightLoad(f, loadFails) =>
      if loadFails then SetPhase(s, f, Finished(Failed))
      else SetPhase(s, f, Loaded(s.flights[f].phase.guard, s.history[s.Last()].row, Source(s.Last(), s.now)))
    case FlightFill(f) =>
      var Loaded(guard, row, from) := s.flights[f].phase;
      var s' := SetPhase(s, f, Finished(Value(row, from.src)));
      s'.(cell := GuardedSet(s.cell, s.now, RawOf(row), Life(p, row), guard.value),
          origin := if Accepts(s.cell, s.now, guard.value) then from else s.origin)
    case FlightSkipFill(f) =>
      var Loaded(_, row, from) := s.flights[f].phase;
      SetPhase(s, f, Finished(Value(row, from.src)))
    case Return(r) =>
      var Waiting(f, fence, stale, led) := s.readers[r];
      s.(readers := s.readers[r := Returned(f, fence, stale, led, s.flights[f].phase.result)])
  }

  ghost predicate Step(p: Params, s: State, s': State) {
    exists l :: Enabled(p, s, l) && s' == Apply(p, s, l)
  }

  ghost predicate Behavior(p: Params, run: seq<State>) {
    && |run| > 0 && Init(run[0])
    && forall i :: 0 <= i < |run| - 1 ==> Step(p, run[i], run[i + 1])
  }

  function Final(run: seq<State>): State
    requires |run| > 0
  {
    run[|run| - 1]
  }

  /* ---- What is promised ---- */

  // The cached product or absence that a reader would be served now.
  function Served(s: State): Option<Option<Product>> {
    match Lookup(s.cell, s.now)
    case Found(p) => Some(Some(p))
    case Absence => Some(None)
    case _ => None
  }

  // The row held its i-th value at time t.
  predicate HeldAt(history: seq<Version>, i: nat, t: nat) {
    i < |history| && history[i].at <= t && (i + 1 < |history| ==> t <= history[i + 1].at)
  }

  // What is served is at least as new as every write whose invalidation has completed.
  ghost predicate Fenced(s: State) {
    Served(s).Some? ==>
      exists i :: s.fence <= i < |s.history| && s.history[i].row == Served(s).value
  }

  // What is served was in the database less than loadTimeout + ttl (or negTTL) ago.
  ghost predicate BoundedStaleness(p: Params, s: State) {
    Served(s).Some? ==>
      exists i: nat, t: nat ::
        && HeldAt(s.history, i, t) && s.history[i].row == Served(s).value
        && t <= s.now
        && s.now < t + p.loadTimeout + if Served(s).value.Some? then Px(p.ttl) else Px(p.negTTL)
  }

  // The setting that the fence rests on, and that start-up validation does not check.
  predicate FencingSettings(p: Params) {
    p.loadTimeout < Min(Px(p.ttl), Px(p.negTTL))
  }

  /* ---- The inductive invariant ---- */

  predicate Sourced(s: State, row: Option<Product>, from: Source) {
    HeldAt(s.history, from.src, from.at) && s.history[from.src].row == row && from.at <= s.now
  }

  ghost predicate HistoryInv(s: State) {
    && |s.history| > 0
    && (forall i :: 0 <= i < |s.history| ==> s.history[i].at <= s.now)
    && (forall w :: (w in s.pending || w in s.lost) ==> w < |s.history|)
    && s.fence < |s.history|
    && (forall w :: s.fence < w < |s.history| ==> (w in s.pending || w in s.lost))
  }

  predicate CellInv(p: Params, s: State) {
    s.cell.Some? ==>
      match s.cell.value.raw
      case Tombstone(text) => text in s.texts
      case Garbage(_) => true
      case raw =>
        var row := if raw.Payload? then Some(raw.product) else None;
        && Sourced(s, row, s.origin)
        && s.cell.value.expires <= s.origin.at + p.loadTimeout + Px(Life(p, row))
  }

  // A guard is the absence of the key, or a token that no later write to the cell can repeat.
  predicate GuardInv(s: State, guard: Option<Entry>) {
    guard.Some? ==>
      && !guard.value.Hit()
      && (guard.value.Token? ==>
          guard.value.raw.Garbage? || (guard.value.raw.Tombstone? && guard.value.raw.text in s.texts))
  }

  predicate FlightInv(s: State, f: nat)
    requires f in s.flights
  {
    var fl := s.flights[f];
    && fl.began <= s.now
    && match fl.phase
       case Started => true
       case Missed(guard) => GuardInv(s, guard)
       case Loaded(guard, row, from) => GuardInv(s, guard) && Sourced(s, row, from) && fl.began <= from.at
       case Finished(result) => result.Value? ==> result.src < |s.history| && s.history[result.src].row == result.row
  }

  // Each instance runs at most one flight at a time, the one new misses join.
  ghost predicate CallsInv(s: State) {
    && (forall i :: i in s.calls ==>
          s.calls[i] in s.flights && s.flights[s.calls[i]].instance == i && !s.flights[s.calls[i]].phase.Finished?)
    && (forall f :: f in s.flights && !s.flights[f].phase.Finished? ==>
          s.flights[f].instance in s.calls && s.calls[s.flights[f].instance] == f)
  }

  // Holds for all settings.
  ghost predicate Inv(p: Params, s: State) {
    && HistoryInv(s)
    && CellInv(p, s)
    && CallsInv(s)
    && (forall f :: f in s.flights ==> FlightInv(s, f))
  }

  // A flight that loaded a fenced-off value can no longer fill before its deadline.
  predicate Barred(p: Params, s: State, f: nat)
    requires f in s.flights && s.flights[f].phase.Loaded? && s.flights[f].phase.guard.Some?
  {
    match s.flights[f].phase.guard.value
    case NoKey => s.cell.Some? && s.flights[f].began + p.loadTimeout < s.cell.value.expires
    case Token(raw) => s.cell.Some? ==> s.cell.value.raw != raw
    case _ => true
  }

  predicate FlightFence(p: Params, s: State, f: nat)
    requires f in s.flights
  {
    var fl := s.flights[f];
    && fl.fence <= s.fence
    && (fl.phase.Loaded? ==>
        && fl.fence <= fl.phase.from.src
        && (fl.phase.guard.Some? && fl.phase.from.src < s.fence ==> Barred(p, s, f)))
    && (fl.phase.Finished? && fl.phase.result.Value? ==> fl.fence <= fl.phase.result.src)
  }

  // What a flight loaded or returned is older than the fence exactly when it is the stale one.
  predicate StaleExactly(s: State, f: nat, fence: nat, stale: Option<nat>)
    requires f in s.flights
  {
    match s.flights[f].phase
    case Loaded(_, _, from) => from.src < fence <==> stale == Some(f)
    case Finished(Value(_, src)) => src < fence <==> stale == Some(f)
    case Finished(Failed) => true
    case _ => stale != Some(f)
  }

  predicate ReaderFence(s: State, r: nat)
    requires r in s.readers
  {
    match s.readers[r]
    case Reading(instance, fence, stale) =>
      && fence <= s.fence && (stale.Some? ==> stale.value in s.flights)
      && (instance in s.calls && s.calls[instance] in s.flights ==> StaleExactly(s, s.calls[instance], fence, stale))
    case Waiting(f, fence, stale, led) =>
      fence <= s.fence && f in s.flights && (led ==> fence <= s.flights[f].fence) && StaleExactly(s, f, fence, stale)
    case ReturnedHit(fence, result) =>
      result.Value? && fence <= result.src < |s.history| && s.history[result.src].row == result.row
    case Returned(f, fence, stale, led, result) =>
      && f in s.flights && s.flights[f].phase == Finished(result)
      && (led ==> fence <= s.flights[f].fence) && StaleExactly(s, f, fence, stale)
  }

  predicate CellFence(s: State) {
    s.cell.Some? && (s.cell.value.raw.Payload? || s.cell.value.raw.Missing?) ==> s.fence <= s.origin.src
  }

  // Holds when the settings keep every entry alive longer than a flight.
  ghost predicate FenceInv(p: Params, s: State) {
    && CellFence(s)
    && (forall f :: f in s.flights ==> FlightFence(p, s, f))
    && (forall r :: r in s.readers ==> ReaderFence(s, r))
  }

  // What a flight's step does to flights and calls.
  lemma FlightStepFrame(p: Params, s: State, l: Label)
    requires Enabled(p, s, l) && FlightLabel(l)
    ensures var s' := Apply(p, s, l);
      && s'.readers == s.readers && s'.fence == s.fence && s'.history == s.history
      && l.f in s'.flights && !s.flights[l.f].phase.Finished?
      && s'.flights == s.flights[l.f := s.flights[l.f].(phase := s'.flights[l.f].phase)]
      && s'.calls == if s'.flights[l.f].phase.Finished? then s.calls - {s.flights[l.f].instance} else s.calls
  {
  }

  // Every other step but a join leaves them alone.
  lemma QuietStepFrame(p: Params, s: State, l: Label)
    requires Enabled(p, s, l) && !FlightLabel(l) && !l.Join?
    ensures var s' := Apply(p, s, l);
      && s'.flights == s.flights && s'.calls == s.calls
      && |s.history| <= |s'.history| && s'.history[..|s.history|] == s.history
      && (s.fence < |s.history| ==> s.fence <= s'.fence)
  {
  }

  lemma FlightStepKeepsFlightInv(p: Params, s: State, l: Label, f: nat)
    requires Enabled(p, s, l) && FlightLabel(l) && s.history[s.Last()].at <= s.now && CellInv(p, s)
    requires f in s.flights && FlightInv(s, f)
    ensures FlightInv(Apply(p, s, l), f)
  {
  }

  lemma StepKeepsFlightInv(p: Params, s: State, l: Label, f: nat)
    requires Enabled(p, s, l) && s.history[s.Last()].at <= s.now && CellInv(p, s)
    requires f in s.flights ==> FlightInv(s, f)
    requires f in Apply(p, s, l).flights
    ensures FlightInv(Apply(p, s, l), f)
  {
    if FlightLabel(l) {
      FlightStepKeepsFlightInv(p, s, l, f);
    }
  }

  lemma FillKeepsCellInv(p: Params, s: State, f: nat)
    requires CellInv(p, s) && Enabled(p, s, FlightFill(f)) && FlightInv(s, f)
    ensures CellInv(p, Apply(p, s, FlightFill(f)))
  {
  }

  lemma StepKeepsCellInv(p: Params, s: State, l: Label)
    requires CellInv(p, s) && Enabled(p, s, l) && !l.FlightFill?
    ensures CellInv(p, Apply(p, s, l))
  {
    var s' := Apply(p, s, l);
    assert s'.cell == s.cell || l.Invalidate?;
  }

  lemma StepKeepsHistoryInv(p: Params, s: State, l: Label)
    requires HistoryInv(s) && Enabled(p, s, l)
    ensures HistoryInv(Apply(p, s, l))
  {
  }

  lemma FlightStepKeepsCallsInv(p: Params, s: State, l: Label)
    requires CallsInv(s) && Enabled(p, s, l) && FlightLabel(l)
    ensures CallsInv(Apply(p, s, l))
  {
    FlightStepFrame(p, s, l);
  }

  lemma StepKeepsCallsInv(p: Params, s: State, l: Label)
    requires CallsInv(s) && Enabled(p, s, l)
    ensures CallsInv(Apply(p, s, l))
  {
    if FlightLabel(l) {
      FlightStepKeepsCallsInv(p, s, l);
    } else if !l.Join? {
      QuietStepFrame(p, s, l);
    }
  }

  lemma StepKeepsInv(p: Params, s: State, l: Label)
    requires Inv(p, s) && Enabled(p, s, l)
    ensures Inv(p, Apply(p, s, l))
  {
    var s' := Apply(p, s, l);
    StepKeepsHistoryInv(p, s, l);
    StepKeepsCallsInv(p, s, l);
    if l.FlightFill? {
      FillKeepsCellInv(p, s, l.f);
    } else {
      StepKeepsCellInv(p, s, l);
    }
    forall f | f in s'.flights ensures FlightInv(s', f) {
      StepKeepsFlightInv(p, s, l, f);
    }
  }

  // A fill that the cache accepts carries a value no completed invalidation has passed.
  lemma AcceptedFillIsFresh(p: Params, s: State, f: nat)
    requires f in s.flights && FlightFence(p, s, f) && Enabled(p, s, FlightFill(f))
    requires Accepts(s.cell, s.now, s.flights[f].phase.guard.value)
    ensures s.fence <= s.flights[f].phase.from.src
  {
  }

  lemma StepKeepsCellFence(p: Params, s: State, l: Label)
    requires Enabled(p, s, l) && CellFence(s)
    requires l.FlightFill? ==> FlightFence(p, s, l.f)
    ensures CellFence(Apply(p, s, l))
  {
    if l.FlightFill? && Accepts(s.cell, s.now, s.flights[l.f].phase.guard.value) {
      AcceptedFillIsFresh(p, s, l.f);
    }
  }

  lemma FlightStepKeepsFlightFence(p: Params, s: State, l: Label, f: nat)
    requires FencingSettings(p) && Enabled(p, s, l) && FlightLabel(l)
    requires s.fence < |s.history| && CellFence(s)
    requires f in s.flights && FlightInv(s, f) && FlightFence(p, s, f)
    ensures FlightFence(p, Apply(p, s, l), f)
  {
  }

  lemma StepKeepsFlightFence(p: Params, s: State, l: Label, f: nat)
    requires FencingSettings(p) && Enabled(p, s, l)
    requires s.fence < |s.history| && CellFence(s)
    requires f in s.flights ==> FlightInv(s, f) && FlightFence(p, s, f)
    requires f in Apply(p, s, l).flights
    ensures FlightFence(p, Apply(p, s, l), f)
  {
    if FlightLabel(l) {
      FlightStepKeepsFlightFence(p, s, l, f);
    }
  }

  // A flight loads, or is served, what no completed invalidation has passed.
  lemma FlightStepKeepsStale(p: Params, s: State, l: Label, f: nat, fence: nat, stale: Option<nat>)
    requires Enabled(p, s, l) && FlightLabel(l) && fence <= s.fence < |s.history| && CellFence(s)
    requires f in s.flights && StaleExactly(s, f, fence, stale)
    ensures StaleExactly(Apply(p, s, l), f, fence, stale)
  {
  }

  lemma FlightStepKeepsReaderFence(p: Params, s: State, l: Label, r: nat)
    requires Enabled(p, s, l) && FlightLabel(l) && s.fence < |s.history| && CellInv(p, s) && CellFence(s)
    requires r in s.readers && ReaderFence(s, r)
    ensures ReaderFence(Apply(p, s, l), r)
  {
    FlightStepFrame(p, s, l);
    match s.readers[r]
    case Reading(instance, fence, stale) =>
      if instance in s.calls && s.calls[instance] in s.flights {
        FlightStepKeepsStale(p, s, l, s.calls[instance], fence, stale);
      }
    case Waiting(f, fence, stale, _) => FlightStepKeepsStale(p, s, l, f, fence, stale);
    case _ =>
  }

  lemma JoinKeepsReaderFence(p: Params, s: State, l: Label, r: nat)
    requires Enabled(p, s, l) && l.Join? && CallsInv(s)
    requires r in s.readers && ReaderFence(s, r) && ReaderFence(s, l.r)
    ensures ReaderFence(Apply(p, s, l), r)
  {
  }

  lemma ReadKeepsReaderFence(p: Params, s: State, l: Label, r: nat)
    requires Enabled(p, s, l) && l.Read? && s.fence < |s.history| && CellInv(p, s) && CellFence(s) && CallsInv(s)
    requires r == l.r || (r in s.readers && ReaderFence(s, r))
    ensures ReaderFence(Apply(p, s, l), r)
  {
  }

  lemma QuietStepKeepsReaderFence(p: Params, s: State, l: Label, r: nat)
    requires Enabled(p, s, l) && !FlightLabel(l) && !l.Join? && !l.Read? && s.fence < |s.history|
    requires r in s.readers && ReaderFence(s, r)
    ensures ReaderFence(Apply(p, s, l), r)
  {
    QuietStepFrame(p, s, l);
  }

  lemma StepKeepsReaderFence(p: Params, s: State, l: Label, r: nat)
    requires Enabled(p, s, l) && s.fence < |s.history| && CellInv(p, s) && CellFence(s) && CallsInv(s)
    requires forall q :: q in s.readers ==> ReaderFence(s, q)
    requires r in Apply(p, s, l).readers
    ensures ReaderFence(Apply(p, s, l), r)
  {
    if FlightLabel(l) {
      FlightStepKeepsReaderFence(p, s, l, r);
    } else if l.Join? {
      JoinKeepsReaderFence(p, s, l, r);
    } else if l.Read? {
      ReadKeepsReaderFence(p, s, l, r);
    } else {
      QuietStepKeepsReaderFence(p, s, l, r);
    }
  }

  lemma StepKeepsFence(p: Params, s: State, l: Label)
    requires FencingSettings(p)
    requires Inv(p, s) && FenceInv(p, s) && Enabled(p, s, l)
    ensures FenceInv(p, Apply(p, s, l))
  {
    var s' := Apply(p, s, l);
    StepKeepsCellFence(p, s, l);
    forall f | f in s'.flights ensures FlightFence(p, s', f) {
      StepKeepsFlightFence(p, s, l, f);
    }
    forall r | r in s'.readers ensures ReaderFence(s', r) {
      StepKeepsReaderFence(p, s, l, r);
    }
  }

  lemma {:induction false} ReachableInv(p: Params, run: seq<State>)
    requires Behavior(p, run)
    ensures Inv(p, Final(run))
    ensures FencingSettings(p) ==> FenceInv(p, Final(run))
    decreases |run|
  {
    if |run| > 1 {
      var before := run[..|run| - 1];
      ReachableInv(p, before);
      assert Step(p, run[|run| - 2], run[|run| - 1]);
      var l :| Enabled(p, Final(before), l) && Final(run) == Apply(p, Final(before), l);
      StepKeepsInv(p, Final(before), l);
      if FencingSettings(p) {
        StepKeepsFence(p, Final(before), l);
      }
    }
  }

  /* ---- Theorems over whole runs ---- */

  lemma StalenessIsBounded(p: Params, run: seq<State>)
    requires Behavior(p, run)
    ensures BoundedStaleness(p, Final(run))
  {
    var s := Final(run);
    ReachableInv(p, run);
    if Served(s).Some? {
      assert HeldAt(s.history, s.origin.src, s.origin.at) && s.history[s.origin.src].row == Served(s).value;
    }
  }

  lemma CacheIsFenced(p: Params, run: seq<State>)
    requires FencingSettings(p) && Behavior(p, run)
    ensures Fenced(Final(run))
    ensures var s := Final(run);
      s.pending == {} && s.lost == {} && Served(s).Some? ==> Served(s).value == s.history[s.Last()].row
  {
    var s := Final(run);
    ReachableInv(p, run);
    if Served(s).Some? {
      assert s.fence <= s.origin.src < |s.history| && s.history[s.origin.src].row == Served(s).value;
      assert s.fence < s.Last() ==> s.Last() in s.pending || s.Last() in s.lost;
    }
  }

  // Every read returns a row that the database held. It is older than a write invalidated before the read began
  // if and only if the read joined a flight that had already loaded it then, which no flight begun since has.
  lemma OnlyJoinedReadsAreBehind(p: Params, run: seq<State>, r: nat)
    requires FencingSettings(p) && Behavior(p, run)
    requires r in Final(run).readers
    ensures match Final(run).readers[r]
      case ReturnedHit(fence, result) =>
        result.Value? && fence <= result.src < |Final(run).history| && Final(run).history[result.src].row == result.row
      case Returned(f, fence, stale, led, Value(row, src)) =>
        && f in Final(run).flights && Final(run).flights[f].fence <= src < |Final(run).history|
        && Final(run).history[src].row == row
        && (src < fence <==> stale == Some(f))
        && (src < fence ==> !led && Final(run).flights[f].fence < fence)
      case _ => true
  {
    var s := Final(run);
    ReachableInv(p, run);
    assert ReaderFence(s, r);
    if s.readers[r].Returned? {
      assert FlightInv(s, s.readers[r].flight) && FlightFence(p, s, s.readers[r].flight);
    }
  }

  lemma StepKeepsReader(p: Params, s: State, l: Label, r: nat)
    requires Enabled(p, s, l) && r in s.readers
    ensures var s' := Apply(p, s, l);
      && r in s'.readers && s'.readers[r].fence == s.readers[r].fence
      && (s'.readers[r].ReturnedHit? <==> s.readers[r].ReturnedHit?)
      && (!s.readers[r].ReturnedHit? ==> s'.readers[r].stale == s.readers[r].stale)
  {
    if FlightLabel(l) {
      FlightStepFrame(p, s, l);
    }
  }

  // The state in which a read began is the one its fence and its stale flight were taken from.
  lemma {:induction false} ReadBegan(p: Params, run: seq<State>, r: nat) returns (k: nat)
    requires Behavior(p, run) && r in Final(run).readers
    ensures k + 1 < |run| && r !in run[k].readers && r in run[k + 1].readers
    ensures Final(run).readers[r].fence == run[k].fence
    ensures !Final(run).readers[r].ReturnedHit? ==>
      exists instance :: Final(run).readers[r].stale == StaleFlight(run[k], instance)
    decreases |run|
  {
    var n := |run| - 2;
    assert n >= 0 && Step(p, run[n], run[n + 1]);
    var l :| Enabled(p, run[n], l) && run[n + 1] == Apply(p, run[n], l);
    if r in run[n].readers {
      k := ReadBegan(p, run[..n + 1], r);
      StepKeepsReader(p, run[n], l, r);
    } else {
      k := n;
      assert l.Read? && l.r == r;
      assert !run[n + 1].readers[r].ReturnedHit? ==> run[n + 1].readers[r].stale == StaleFlight(run[n], l.instance);
    }
  }

  // The flight has loaded, or returned, the row's value at src.
  predicate Loads(s: State, f: nat, src: nat) {
    f in s.flights &&
    match s.flights[f].phase
    case Loaded(_, _, from) => from.src == src
    case Finished(Value(_, from)) => from == src
    case _ => false
  }

  lemma StepKeepsLoaded(p: Params, s: State, s': State, f: nat, src: nat)
    requires Step(p, s, s') && Loads(s, f, src)
    ensures Loads(s', f, src)
  {
    var l :| Enabled(p, s, l) && s' == Apply(p, s, l);
    if FlightLabel(l) {
      FlightStepFrame(p, s, l);
    } else if !l.Join? {
      QuietStepFrame(p, s, l);
    }
  }

  // What a flight has loaded is what it returns.
  lemma {:induction false} LoadedIsReturned(p: Params, run: seq<State>, k: nat, f: nat, src: nat)
    requires Behavior(p, run) && k < |run| && Loads(run[k], f, src)
    ensures Loads(Final(run), f, src)
    decreases |run|
  {
    if k < |run| - 1 {
      var before := run[..|run| - 1];
      LoadedIsReturned(p, before, k, f, src);
      StepKeepsLoaded(p, Final(before), Final(run), f, src);
    }
  }

  // A read that began in run[k] returns a row older than a write invalidated by then if and only if the flight it
  // was answered by had already loaded such a row in run[k]. A hit never does.
  lemma ReadIsBehindExactlyWhen(p: Params, run: seq<State>, r: nat) returns (k: nat)
    requires FencingSettings(p) && Behavior(p, run) && r in Final(run).readers
    ensures k + 1 < |run| && r !in run[k].readers && r in run[k + 1].readers
    ensures match Final(run).readers[r]
      case ReturnedHit(_, result) =>
        result.Value? && run[k].fence <= result.src < |Final(run).history|
        && Final(run).history[result.src].row == result.row
      case Returned(f, _, _, _, Value(row, src)) =>
        && src < |Final(run).history| && Final(run).history[src].row == row
        && (src < run[k].fence <==> HoldsPassedRow(run[k], f))
      case _ => true
  {
    k := ReadBegan(p, run, r);
    OnlyJoinedReadsAreBehind(p, run, r);
    match Final(run).readers[r]
    case Returned(f, _, _, _, Value(_, _)) =>
      if HoldsPassedRow(run[k], f) {
        LoadedIsReturned(p, run, k, f, run[k].flights[f].phase.from.src);
        ReachableInv(p, run);
        assert ReaderFence(Final(run), r);
      }
    case _ =>
  }

  // A read answers at once exactly when the cache serves something, and with just that; a failing Get is a miss.
  lemma ReadServesCache(p: Params, s: State, r: nat, instance: nat, getFails: bool)
    requires Enabled(p, s, Read(r, instance, getFails))
    ensures var reader := Apply(p, s, Read(r, instance, getFails)).readers[r];
      && (reader.ReturnedHit? <==> !getFails && Served(s).Some?)
      && (reader.ReturnedHit? ==> reader.result.Value? && reader.result.row == Served(s).value)
  {
  }

  // As singleflight is assumed to work, concurrent misses in one instance share a single database load.
  lemma OneFlightPerInstance(p: Params, run: seq<State>, f: nat, g: nat)
    requires Behavior(p, run)
    requires f in Final(run).flights && g in Final(run).flights
    requires !Final(run).flights[f].phase.Finished? && !Final(run).flights[g].phase.Finished?
    requires Final(run).flights[f].instance == Final(run).flights[g].instance
    ensures f == g
  {
    ReachableInv(p, run);
  }

  /* ---- The settings are necessary, and joining can be behind ---- */

  const OLD := Product(1, "widget", Money(999, PLN), 10, 1)
  const NEW := Product(1, "widget", Money(999, PLN), 8, 2)

  const START := State(0, [Version(0, Some(OLD))], None, Source(0, 0), {}, {}, 0, {}, map[], map[], map[])

  lemma Extend(p: Params, run: seq<State>, l: Label) returns (longer: seq<State>)
    requires Behavior(p, run) && Enabled(p, Final(run), l)
    ensures Behavior(p, longer) && Final(longer) == Apply(p, Final(run), l)
  {
    longer := run + [Apply(p, Final(run), l)];
    assert Step(p, Final(run), Final(longer));
  }

  // A flight that has loaded the old row and is about to fill.
  lemma LoadOldRow(p: Params) returns (run: seq<State>)
    ensures Behavior(p, run)
    ensures var s := Final(run);
      && s == START.(readers := s.readers, flights := s.flights, calls := s.calls)
      && s.calls == map[0 := 0] && s.readers == map[0 := Waiting(0, 0, None, true)]
      && s.flights == map[0 := Flight(0, 0, 0, Loaded(Some(NoKey), Some(OLD), Source(0, 0)))]
  {
    run := [START];
    run := Extend(p, run, Read(0, 0, false));
    run := Extend(p, run, Join(0, 0));
    run := Extend(p, run, FlightGet(0, false));
    run := Extend(p, run, FlightLoad(0, false));
  }

  // The tombstone expires within the flight's deadline, and the flight restores the old row.
  lemma ShortTTLBreaksFence(p: Params) returns (run: seq<State>)
    requires MILLISECOND <= p.ttl && Px(p.ttl) <= p.loadTimeout
    ensures Behavior(p, run) && !Fenced(Final(run))
  {
    run := LoadOldRow(p);
    run := Extend(p, run, Write(Some(NEW)));
    run := Extend(p, run, Invalidate(1, 7));
    run := Extend(p, run, Tick(Px(p.ttl)));
    run := Extend(p, run, FlightFill(0));
    assert Served(Final(run)) == Some(Some(OLD));
  }

  // While the first flight holds the old row, the row is deleted and tombstoned.
  lemma DeleteRow(p: Params) returns (run: seq<State>)
    requires MILLISECOND <= p.ttl
    ensures Behavior(p, run)
    ensures var s := Final(run);
      && s.now == 0 && s.history == [Version(0, Some(OLD)), Version(0, None)] && s.fence == 1
      && s.cell == Some(Stored(Tombstone(7), Px(p.ttl))) && s.calls == map[0 := 0]
      && s.readers == map[0 := Waiting(0, 0, None, true)]
      && s.flights == map[0 := Flight(0, 0, 0, Loaded(Some(NoKey), Some(OLD), Source(0, 0)))]
  {
    run := LoadOldRow(p);
    run := Extend(p, run, Write(None));
    run := Extend(p, run, Invalidate(1, 7));
  }

  // A second instance loads the absence behind the tombstone's token.
  lemma LoadAbsence(p: Params) returns (run: seq<State>)
    requires MILLISECOND <= p.ttl
    ensures Behavior(p, run)
    ensures var s := Final(run);
      && s.now == 0 && s.history == [Version(0, Some(OLD)), Version(0, None)] && s.fence == 1
      && s.cell == Some(Stored(Tombstone(7), Px(p.ttl)))
      && 0 in s.flights && 1 in s.flights
      && s.flights[0] == Flight(0, 0, 0, Loaded(Some(NoKey), Some(OLD), Source(0, 0)))
      && s.flights[1] == Flight(1, 0, 1, Loaded(Some(Token(Tombstone(7))), None, Source(1, 0)))
  {
    run := DeleteRow(p);
    run := Extend(p, run, Read(1, 1, false));
    run := Extend(p, run, Join(1, 1));
    run := Extend(p, run, FlightGet(1, false));
    run := Extend(p, run, FlightLoad(1, false));
  }

  // The cached absence that replaced the tombstone expires within the first flight's deadline.
  lemma ShortNegTTLBreaksFence(p: Params) returns (run: seq<State>)
    requires MILLISECOND <= p.ttl && MILLISECOND <= p.negTTL && Px(p.negTTL) <= p.loadTimeout
    ensures Behavior(p, run) && !Fenced(Final(run))
  {
    run := LoadAbsence(p);
    run := Extend(p, run, FlightFill(1));
    run := Extend(p, run, Tick(Px(p.negTTL)));
    run := Extend(p, run, FlightFill(0));
    assert Served(Final(run)) == Some(Some(OLD));
  }

  // The fence holds in all reachable states exactly when every entry outlives every flight.
  lemma FencedExactlyWhen(p: Params)
    requires MILLISECOND <= p.ttl && MILLISECOND <= p.negTTL
    ensures (forall run :: Behavior(p, run) ==> Fenced(Final(run))) <==> FencingSettings(p)
  {
    if FencingSettings(p) {
      forall run | Behavior(p, run) ensures Fenced(Final(run)) {
        CacheIsFenced(p, run);
      }
    } else if Px(p.ttl) <= p.loadTimeout {
      var run := ShortTTLBreaksFence(p);
    } else {
      var run := ShortNegTTLBreaksFence(p);
    }
  }

  // Without its invalidation, a write can go unseen to the last moment of the staleness bound.
  lemma StalenessBoundIsTight(p: Params) returns (run: seq<State>)
    requires MILLISECOND <= p.ttl
    ensures Behavior(p, run)
    ensures var s := Final(run);
      && s.history == [Version(0, Some(OLD)), Version(0, Some(NEW))] && Served(s) == Some(Some(OLD))
      && s.now + 1 == p.loadTimeout + Px(p.ttl)
  {
    run := LoadOldRow(p);
    run := Extend(p, run, Write(Some(NEW)));
    run := Extend(p, run, LoseInvalidation(1));
    run := Extend(p, run, Tick(p.loadTimeout));
    run := Extend(p, run, FlightFill(0));
    run := Extend(p, run, Tick(Px(p.ttl) - 1));
  }

  // A read begins after the invalidation completed, and joins the flight that has loaded the old row.
  lemma JoinLate(p: Params) returns (run: seq<State>)
    ensures Behavior(p, run)
    ensures var s := Final(run);
      && |s.history| > 0 && 1 in s.readers && s.readers[1] == Waiting(0, 1, Some(0), false) && 0 in s.flights
      && s.flights[0] == Flight(0, 0, 0, Loaded(Some(NoKey), Some(OLD), Source(0, 0)))
  {
    run := LoadOldRow(p);
    run := Extend(p, run, Write(Some(NEW)));
    run := Extend(p, run, Invalidate(1, 7));
    run := Extend(p, run, Read(1, 0, false));
    run := Extend(p, run, Join(1, 0));
  }

  // It gets the old row.
  lemma JoinedReadCanBeBehind(p: Params) returns (run: seq<State>)
    ensures Behavior(p, run)
    ensures var s := Final(run);
      && 1 in s.readers && s.readers[1].Returned? && s.readers[1].fence == 1
      && s.readers[1].result == Value(Some(OLD), 0)
  {
    run := JoinLate(p);
    run := Extend(p, run, FlightSkipFill(0));
    run := Extend(p, run, Return(1));
  }
}
