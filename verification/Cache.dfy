/** The Valkey cache: tagged values, time-to-live, and the compare-and-set guard of a fill. */
module Cache {
  import opened Domain

  // The clock counts nanoseconds, as time.Duration does.
  const MILLISECOND: nat := 1000000

  // A duration as PX sees it: truncated to whole milliseconds.
  function Px(d: nat): (r: nat)
    ensures r <= d < r + 1_000_000 && r % 1_000_000 == 0
  {
    d / MILLISECOND * MILLISECOND
  }

  // A stored value by its tag byte. Garbage is any value that does not decode.
  datatype Raw =
    | Payload(product: Product)
    | Missing
    | Tombstone(text: nat)
    | Garbage(bytes: seq<nat>)

  datatype Stored = Stored(raw: Raw, expires: nat)

  // What Get reports: no key, a cached product, a cached absence, or a value that only serves as a token.
  datatype Entry = NoKey | Found(product: Product) | Absence | Token(raw: Raw) {
    predicate Hit() { Found? || Absence? }
  }

  // The value a client sees at time now. An entry is taken to be gone from the very moment of its expiry on.
  function Visible(cell: Option<Stored>, now: nat): Option<Raw> {
    if cell.Some? && now < cell.value.expires then Some(cell.value.raw) else None
  }

  function Classify(raw: Raw): Entry {
    match raw
    case Payload(p) => Found(p)
    case Missing => Absence
    case _ => Token(raw)
  }

  function Lookup(cell: Option<Stored>, now: nat): Entry {
    match Visible(cell, now)
    case None => NoKey
    case Some(raw) => Classify(raw)
  }

  // Whether SET ... NX, or SET ... IFEQ token, takes effect.
  predicate Accepts(cell: Option<Stored>, now: nat, prev: Entry) {
    match prev
    case NoKey => Visible(cell, now).None?
    case Token(raw) => Visible(cell, now) == Some(raw)
    case _ => false
  }

  function GuardedSet(cell: Option<Stored>, now: nat, raw: Raw, ttl: nat, prev: Entry): Option<Stored> {
    if Accepts(cell, now, prev) then Some(Stored(raw, now + Px(ttl))) else cell
  }

  // A fill behind a miss that still stands is accepted, and a hit is never overwritten.
  lemma AcceptedExactlyBehindMiss(cell: Option<Stored>, now: nat)
    ensures Accepts(cell, now, Lookup(cell, now)) <==> !Lookup(cell, now).Hit()
  {
  }

  // What an accepted set stores is read back until its time is over, and then the key is gone.
  lemma SetThenGet(cell: Option<Stored>, now: nat, prev: Entry, ttl: nat, p: Product, t: nat)
    requires Accepts(cell, now, prev) && now <= t
    ensures Lookup(GuardedSet(cell, now, Payload(p), ttl, prev), t) == if t < now + Px(ttl) then Found(p) else NoKey
    ensures Lookup(GuardedSet(cell, now, Missing, ttl, prev), t) == if t < now + Px(ttl) then Absence else NoKey
  {
  }

  // A tombstone is never served, and only a fill that has read that very tombstone replaces it.
  lemma TombstoneFences(text: nat, expires: nat, now: nat, prev: Entry)
    requires now < expires
    ensures var cell := Some(Stored(Tombstone(text), expires));
      !Lookup(cell, now).Hit() && (Accepts(cell, now, prev) <==> prev == Token(Tombstone(text)))
  {
  }

  function Cell(cells: map<Uuid, Stored>, key: Uuid): Option<Stored> {
    if key in cells then Some(cells[key]) else None
  }

  class Valkey {
    var cells: map<Uuid, Stored>
    const ttl: nat
    const negTTL: nat

    constructor (ttl: nat, negTTL: nat)
      ensures cells == map[] && this.ttl == ttl && this.negTTL == negTTL
    {
      cells, this.ttl, this.negTTL := map[], ttl, negTTL;
    }

    method Get(key: Uuid, now: nat) returns (entry: Entry)
      ensures entry == Lookup(Cell(cells, key), now)
    {
      if key !in cells || cells[key].expires <= now {
        return NoKey;
      }
      entry := Classify(cells[key].raw);
    }

    method Set(key: Uuid, p: Product, prev: Entry, now: nat)
      modifies this`cells
      ensures Cell(cells, key) == GuardedSet(old(Cell(cells, key)), now, Payload(p), ttl, prev)
      ensures cells - {key} == old(cells) - {key}
    {
      Guarded(key, Payload(p), ttl, prev, now);
    }

    method SetMissing(key: Uuid, prev: Entry, now: nat)
      modifies this`cells
      ensures Cell(cells, key) == GuardedSet(old(Cell(cells, key)), now, Missing, negTTL, prev)
      ensures cells - {key} == old(cells) - {key}
    {
      Guarded(key, Missing, negTTL, prev, now);
    }

    // Writers replace whatever is cached, without a guard.
    method Invalidate(key: Uuid, text: nat, now: nat)
      modifies this`cells
      ensures Cell(cells, key) == Some(Stored(Tombstone(text), now + Px(ttl)))
      ensures cells - {key} == old(cells) - {key}
    {
      cells := cells[key := Stored(Tombstone(text), now + Px(ttl))];
    }

    method Guarded(key: Uuid, raw: Raw, life: nat, prev: Entry, now: nat)
      modifies this`cells
      ensures Cell(cells, key) == GuardedSet(old(Cell(cells, key)), now, raw, life, prev)
      ensures cells - {key} == old(cells) - {key}
    {
      var present := key in cells && now < cells[key].expires;
      var accepted := if prev.NoKey? then !present else prev.Token? && present && cells[key].raw == prev.raw;
      if accepted {
        cells := cells[key := Stored(raw, now + Px(life))];
      }
    }
  }
}
