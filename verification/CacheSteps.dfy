// The cache of internal/cache/cache.go as a system of steps.  Get holds the lock for its
// read, its delete and its hit count, but not in between, so its parts are separate actions
// that interleave with Set, with cleanup and with other Gets.  Times are nanoseconds.  The
// clock readings of the locked sections follow one another; those a Get takes without the
// lock only follow its own earlier ones, and may fall between two readings of a locked section.
module CacheSteps {
  import opened Arithmetic
  import opened Dns

  const SECOND: int := 1_000_000_000

  // `wide` is what the platform makes of a number of seconds that does not fit 32 bits.
  datatype Config = Config(
    tables: Tables,
    wide: int -> u32,
    maxSize: int,
    minTTL: int,
    maxTTL: int,
    negativeTTL: int,
    prefetchRatio: real)

  // What a cache entry holds, apart from its hit count.
  datatype Stored = Stored(msg: Msg, createdAt: int, expiresAt: int, ttl: int, negative: bool)

  // A call of Get between its critical sections; its next clock reading is no earlier than
  // `since`.
  datatype Getter =
    | Idle
    | Holding(key: string, entry: Stored, since: int)
    | Doomed(key: string, since: int)
    | Live(key: string, entry: Stored, since: int)

  // The last locked section ended no later than `clock`.  `inserted` counts the calls of Set
  // that added a key, `dropped` the entries Get deleted.
  datatype State = State(
    table: map<string, Stored>,
    getters: map<nat, Getter>,
    clock: int,
    hits: nat,
    misses: nat,
    evictions: nat,
    inserted: nat,
    dropped: nat)

  datatype Action =
    | Read(i: nat, key: string)
    | Test(i: nat, now: int)
    | Delete(i: nat, now: int)
    | Hit(i: nat, at: int, later: int)
    | Set(key: string, entry: Stored, gone: set<string>, now: int)
    | Clean(gone: set<string>, now: int)

  datatype Run = Start(clock: int) | Then(past: Run, act: Action)

  // ---------- Lifetimes ----------

  function LeastTtl(rrs: seq<RR>, bound: u32): u32 {
    if rrs == [] then bound
    else
      var rest := LeastTtl(rrs[..|rrs| - 1], bound);
      var last := rrs[|rrs| - 1].hdr.ttl;
      if last < rest then last else rest
  }

  // The lifetime a message asks for: its least TTL, at most an hour; half a minute for zero.
  function MessageTtl(msg: Msg): int {
    var least := LeastTtl(msg.ns, LeastTtl(msg.answer, 3600));
    (if least == 0 then 30 else least) * SECOND
  }

  predicate IsNegative(msg: Msg) {
    msg.rcode == RCODE_NAME_ERROR || (msg.rcode == RCODE_SUCCESS && msg.answer == [])
  }

  // The lifetime a message gets.
  function StoredTtl(cfg: Config, msg: Msg): int {
    if IsNegative(msg) then cfg.negativeTTL else Min(Max(MessageTtl(msg), cfg.minTTL), cfg.maxTTL)
  }

  predicate Expired(e: Stored, now: int) {
    now > e.expiresAt
  }

  const U32_SIZE: int := 0x1_0000_0000

  // The TTL written into the records of a hit: the whole seconds left, at least one.
  function ServedTtl(cfg: Config, e: Stored, now: int): u32 {
    var seconds := Max(e.expiresAt - now, 0) / SECOND;
    var remaining := if seconds < U32_SIZE then seconds else cfg.wide(seconds);
    if remaining == 0 then 1 else remaining
  }

  function WithTtl(rr: RR, ttl: u32): RR {
    rr.(hdr := rr.hdr.(ttl := ttl))
  }

  function AllWithTtl(rrs: seq<RR>, ttl: u32): seq<RR> {
    seq(|rrs|, i requires 0 <= i < |rrs| => WithTtl(rrs[i], ttl))
  }

  function ExtraWithTtl(rrs: seq<RR>, ttl: u32): seq<RR> {
    seq(|rrs|, i requires 0 <= i < |rrs| => if rrs[i].hdr.rrtype == TYPE_OPT then rrs[i] else WithTtl(rrs[i], ttl))
  }

  // The message of a hit.
  function Refreshed(msg: Msg, ttl: u32): Msg {
    msg.(answer := AllWithTtl(msg.answer, ttl), ns := AllWithTtl(msg.ns, ttl), extra := ExtraWithTtl(msg.extra, ttl))
  }

  // Conversion of a real to an integer type: the fraction is cut off.
  function Trunc(x: real): int {
    if x >= 0.0 then x.Floor else -(-x).Floor
  }

  predicate ShouldPrefetch(e: Stored, ratio: real, now: int) {
    now - e.createdAt > Trunc(e.ttl as real * (1.0 - ratio))
  }

  // ---------- Steps ----------

  // The keys deleted by a pass over the table that reads the clock for each entry.
  ghost predicate Purges(table: map<string, Stored>, gone: set<string>, from: int, to: int) {
    && gone <= table.Keys
    && (forall k :: k in gone ==> Expired(table[k], to))
    && forall k :: k in table && k !in gone ==> !Expired(table[k], from)
  }

  ghost predicate IsOldest(table: map<string, Stored>, key: string) {
    key in table && forall k :: k in table ==> table[key].createdAt <= table[k].createdAt
  }

  // Making room: some expired entries go; only if there are none, one oldest entry does.
  ghost predicate MakesRoom(table: map<string, Stored>, gone: set<string>, from: int, to: int) {
    || (Purges(table, gone, from, to) && (gone != {} || table == map[]))
    || (Purges(table, {}, from, to) && exists k :: gone == {k} && IsOldest(table, k))
  }

  // An entry made for a message between two clock readings.
  predicate MadeBetween(cfg: Config, e: Stored, from: int, to: int) {
    && e.ttl == StoredTtl(cfg, e.msg) && e.negative == IsNegative(e.msg)
    && from <= e.createdAt <= e.expiresAt - e.ttl <= to
  }

  function At(s: State, i: nat): Getter {
    if i in s.getters then s.getters[i] else Idle
  }

  ghost predicate Enabled(cfg: Config, s: State, a: Action) {
    match a
    case Read(i, _) => At(s, i).Idle?
    case Test(i, now) => At(s, i).Holding? && At(s, i).since <= now
    case Delete(i, now) => At(s, i).Doomed? && At(s, i).since <= now && s.clock <= now
    case Hit(i, at, later) => At(s, i).Live? && At(s, i).since <= at <= later
    case Set(_, e, gone, now) =>
      && s.clock <= now && MadeBetween(cfg, e, s.clock, now)
      && if |s.table| >= cfg.maxSize then MakesRoom(s.table, gone, s.clock, now) else gone == {}
    case Clean(gone, now) => s.clock <= now && Purges(s.table, gone, s.clock, now)
  }

  function Effect(s: State, a: Action): State {
    match a
    case Read(i, key) =>
      if key in s.table then s.(getters := s.getters[i := Holding(key, s.table[key], s.clock)])
      else s.(misses := s.misses + 1)
    case Test(i, now) =>
      (match At(s, i)
       case Holding(key, e, _) =>
         s.(getters := s.getters[i := if Expired(e, now) then Doomed(key, now) else Live(key, e, now)])
       case _ => s)
    case Delete(i, now) =>
      (match At(s, i)
       case Doomed(key, _) =>
         s.(table := s.table - {key}, clock := now, getters := s.getters[i := Idle], misses := s.misses + 1,
            dropped := if key in s.table then s.dropped + 1 else s.dropped)
       case _ => s)
    case Hit(i, _, _) =>
      s.(getters := s.getters[i := Idle], hits := s.hits + 1)
    case Set(key, e, gone, now) =>
      s.(table := (s.table - gone)[key := e], clock := now, evictions := s.evictions + |gone|,
         inserted := if key in s.table && key !in gone then s.inserted else s.inserted + 1)
    case Clean(gone, now) =>
      s.(table := s.table - gone, clock := now, evictions := s.evictions + |gone|)
  }

  function After(r: Run): State {
    match r
    case Start(clock) => State(map[], map[], clock, 0, 0, 0, 0, 0)
    case Then(past, a) => Effect(After(past), a)
  }

  ghost predicate Legal(cfg: Config, r: Run) {
    r.Then? ==> Legal(cfg, r.past) && Enabled(cfg, After(r.past), r.act)
  }
}
