// What holds of every run of the cache.
module CacheLaws {
  import opened Options
  import opened Dns
  import opened CacheSteps

  // ---------- Size and conservation ----------

  function Limit(cfg: Config): nat {
    if cfg.maxSize < 1 then 1 else cfg.maxSize
  }

  predicate Sound(cfg: Config, clock: int, e: Stored) {
    MadeBetween(cfg, e, e.createdAt, clock)
  }

  predicate Conserved(cfg: Config, s: State) {
    |s.table| <= Limit(cfg) && s.inserted == |s.table| + s.evictions + s.dropped
  }

  lemma Removing(table: map<string, Stored>, gone: set<string>)
    requires gone <= table.Keys
    ensures |table - gone| == |table| - |gone|
  {
    assert (table - gone).Keys == table.Keys - gone;
  }

  lemma Putting(table: map<string, Stored>, key: string, e: Stored)
    ensures |table[key := e]| == if key in table then |table| else |table| + 1
  {
    assert table[key := e].Keys == table.Keys + {key};
  }

  // A pass that makes room removes something, and all of it was there.
  lemma RoomIsMade(table: map<string, Stored>, gone: set<string>, from: int, to: int)
    requires MakesRoom(table, gone, from, to)
    ensures gone <= table.Keys && (gone == {} ==> table == map[])
    ensures table != map[] ==> |table - gone| < |table|
  {
    Removing(table, gone);
  }

  lemma SettingConserves(cfg: Config, s: State, key: string, e: Stored, gone: set<string>, now: int)
    requires Conserved(cfg, s)
    requires if |s.table| >= cfg.maxSize then MakesRoom(s.table, gone, s.clock, now) else gone == {}
    ensures var size := |(s.table - gone)[key := e]|;
            size <= Limit(cfg) && size == |s.table| - |gone| + if key in s.table && key !in gone then 0 else 1
  {
    if |s.table| >= cfg.maxSize {
      RoomIsMade(s.table, gone, s.clock, now);
    }
    Removing(s.table, gone);
    Putting(s.table - gone, key, e);
  }

  lemma DroppingConserves(cfg: Config, s: State, key: string)
    requires Conserved(cfg, s)
    ensures |s.table - {key}| == if key in s.table then |s.table| - 1 else |s.table|
  {
    if key in s.table {
      Removing(s.table, {key});
    } else {
      assert s.table - {key} == s.table;
    }
  }

  lemma StepConserves(cfg: Config, s: State, a: Action)
    requires Conserved(cfg, s) && Enabled(cfg, s, a)
    ensures Conserved(cfg, Effect(s, a))
  {
    match a
    case Delete(i, _) => DroppingConserves(cfg, s, At(s, i).key);
    case Set(key, e, gone, now) => SettingConserves(cfg, s, key, e, gone, now);
    case Clean(gone, _) => Removing(s.table, gone);
    case _ =>
  }

  // The cache never holds more than its limit, and every key it took in is still there, was
  // evicted, or was deleted by a Get.
  lemma {:induction false} RunConserves(cfg: Config, r: Run)
    requires Legal(cfg, r)
    ensures Conserved(cfg, After(r))
    ensures var s := After(r);
            && |s.table| <= (if cfg.maxSize < 1 then 1 else cfg.maxSize)
            && s.inserted == |s.table| + s.evictions + s.dropped
  {
    if r.Then? {
      RunConserves(cfg, r.past);
      StepConserves(cfg, After(r.past), r.act);
    }
  }

  // What the counters count: hits, Gets that found nothing or something expired, entries purged or
  // evicted, Sets of new keys, entries that Gets deleted.
  datatype Counts = Counts(hits: nat, misses: nat, evictions: nat, inserted: nat, dropped: nat)

  function CountStep(c: Counts, s: State, a: Action): Counts {
    match a
    case Hit(_, _, _) => c.(hits := c.hits + 1)
    case Read(_, key) => if key in s.table then c else c.(misses := c.misses + 1)
    case Delete(i, _) =>
      var found := At(s, i).Doomed? && At(s, i).key in s.table;
      c.(misses := c.misses + 1, dropped := if found then c.dropped + 1 else c.dropped)
    case Set(key, _, gone, _) =>
      var known := key in s.table && key !in gone;
      c.(evictions := c.evictions + |gone|, inserted := if known then c.inserted else c.inserted + 1)
    case Clean(gone, _) => c.(evictions := c.evictions + |gone|)
    case Test(_, _) => c
  }

  function Counted(r: Run): Counts {
    match r
    case Start(_) => Counts(0, 0, 0, 0, 0)
    case Then(past, a) => CountStep(Counted(past), After(past), a)
  }

  function CountersOf(s: State): Counts {
    Counts(s.hits, s.misses, s.evictions, s.inserted, s.dropped)
  }

  lemma StepIsCounted(cfg: Config, s: State, a: Action)
    requires Enabled(cfg, s, a)
    ensures CountersOf(Effect(s, a)) == CountStep(CountersOf(s), s, a)
  {
    var t, c := Effect(s, a), CountStep(CountersOf(s), s, a);
    assert t.hits == c.hits && t.misses == c.misses;
    assert t.evictions == c.evictions && t.inserted == c.inserted && t.dropped == c.dropped;
  }

  lemma {:induction false} CountersCountTheRun(cfg: Config, r: Run)
    requires Legal(cfg, r)
    ensures CountersOf(After(r)) == Counted(r)
  {
    if r.Then? {
      CountersCountTheRun(cfg, r.past);
      StepIsCounted(cfg, After(r.past), r.act);
    }
  }

  // ---------- What a step does to the table ----------

  // Entries that have expired go, and all that had at the start; or, if nothing had expired at the
  // start, the one entry created first.
  ghost predicate GivesWay(table: map<string, Stored>, gone: set<string>, from: int, to: int) {
    || ((forall k :: k in gone ==> k in table && table[k].expiresAt < to)
        && (forall k :: k in table && k !in gone ==> from <= table[k].expiresAt))
    || ((forall k :: k in table ==> from <= table[k].expiresAt)
        && exists oldest :: oldest in table && gone == {oldest}
             && forall k :: k in table ==> table[oldest].createdAt <= table[k].createdAt)
  }

  lemma RoomMeans(table: map<string, Stored>, gone: set<string>, from: int, to: int)
    requires MakesRoom(table, gone, from, to)
    ensures gone <= table.Keys && (gone == {} ==> table == map[]) && GivesWay(table, gone, from, to)
  {
  }

  // A Set puts its entry in, and takes something else out only from a full table, and then
  // something.
  lemma SetMakesRoom(cfg: Config, r: Run, key: string, e: Stored, gone: set<string>, now: int)
    requires Legal(cfg, Then(r, Set(key, e, gone, now)))
    ensures After(Then(r, Set(key, e, gone, now))).table == (After(r).table - gone)[key := e]
    ensures var table := After(r).table;
      if |table| < cfg.maxSize then gone == {}
      else gone <= table.Keys && (gone == {} ==> table == map[]) && GivesWay(table, gone, After(r).clock, now)
  {
    if |After(r).table| >= cfg.maxSize {
      RoomMeans(After(r).table, gone, After(r).clock, now);
    }
  }

  // A cleanup takes out entries that have expired, and all those that had at the start.
  lemma CleanTakesOutTheExpired(cfg: Config, r: Run, gone: set<string>, now: int, k: string)
    requires Legal(cfg, Then(r, Clean(gone, now))) && k in After(r).table
    ensures k !in After(Then(r, Clean(gone, now))).table ==> After(r).table[k].expiresAt < now
    ensures After(r).table[k].expiresAt < After(r).clock ==> k !in After(Then(r, Clean(gone, now))).table
  {
  }

  lemma StepMovesClock(cfg: Config, s: State, a: Action)
    requires Enabled(cfg, s, a)
    ensures s.clock <= Effect(s, a).clock
  {
  }

  lemma {:induction false} EntriesAreSound(cfg: Config, r: Run, key: string)
    requires Legal(cfg, r) && key in After(r).table
    ensures Sound(cfg, After(r).clock, After(r).table[key])
  {
    StepMovesClock(cfg, After(r.past), r.act);
    if !(r.act.Set? && r.act.key == key) {
      EntriesAreSound(cfg, r.past, key);
    }
  }

  // ---------- A lossy map of last writes ----------

  // What was last Set under each key.
  function Latest(r: Run): map<string, Stored> {
    match r
    case Start(_) => map[]
    case Then(past, Set(key, e, _, _)) => Latest(past)[key := e]
    case Then(past, _) => Latest(past)
  }

  // The table never holds anything else, whatever interleaves with what.
  lemma {:induction false} TableHoldsLastWrites(r: Run, key: string)
    requires key in After(r).table
    ensures key in Latest(r) && After(r).table[key] == Latest(r)[key]
  {
    if !(r.act.Set? && r.act.key == key) {
      TableHoldsLastWrites(r.past, key);
    }
  }

  // The run before the latest read of a getter.
  function ReadBy(r: Run, i: nat): Run {
    match r
    case Start(_) => r
    case Then(past, a) => if a.Read? && a.i == i then past else ReadBy(past, i)
  }

  function KeyRead(r: Run, i: nat): string {
    match r
    case Start(_) => ""
    case Then(past, a) => if a.Read? && a.i == i then a.key else KeyRead(past, i)
  }

  // When a getter last tested an entry for expiry.
  function TestedAt(r: Run, i: nat): int {
    match r
    case Start(clock) => clock
    case Then(past, a) => if a.Test? && a.i == i then a.now else TestedAt(past, i)
  }

  predicate IsLatest(r: Run, key: string, e: Stored) {
    key in Latest(r) && Latest(r)[key] == e
  }

  // What a getter carries is the last write at its read; what it serves was not expired when
  // tested, and what it deletes on account of was.
  ghost predicate Follows(r: Run, i: nat) {
    match At(After(r), i)
    case Idle => true
    case Holding(key, e, _) => key == KeyRead(r, i) && IsLatest(ReadBy(r, i), key, e)
    case Live(key, e, since) =>
      && key == KeyRead(r, i) && IsLatest(ReadBy(r, i), key, e)
      && since == TestedAt(r, i) && since <= e.expiresAt
    case Doomed(key, since) =>
      && key == KeyRead(r, i) && key in Latest(ReadBy(r, i))
      && since == TestedAt(r, i) && since > Latest(ReadBy(r, i))[key].expiresAt
  }

  lemma {:induction false} GettersFollowTheirReads(cfg: Config, r: Run, i: nat)
    requires Legal(cfg, r)
    ensures Follows(r, i)
  {
    if r.Then? {
      GettersFollowTheirReads(cfg, r.past, i);
      if r.act.Read? && r.act.i == i && r.act.key in After(r.past).table {
        TableHoldsLastWrites(r.past, r.act.key);
      }
    }
  }

  predicate HoldsSound(cfg: Config, g: Getter) {
    g.Holding? || g.Live? ==> Sound(cfg, g.since, g.entry)
  }

  lemma StepHoldsSound(cfg: Config, s: State, a: Action, i: nat)
    requires Enabled(cfg, s, a) && HoldsSound(cfg, At(s, i))
    requires a.Read? && a.i == i && a.key in s.table ==> Sound(cfg, s.clock, s.table[a.key])
    ensures HoldsSound(cfg, At(Effect(s, a), i))
  {
  }

  lemma {:induction false} HeldEntriesAreSound(cfg: Config, r: Run, i: nat)
    requires Legal(cfg, r)
    ensures HoldsSound(cfg, At(After(r), i))
  {
    if r.Then? {
      HeldEntriesAreSound(cfg, r.past, i);
      if r.act.Read? && r.act.i == i && r.act.key in After(r.past).table {
        EntriesAreSound(cfg, r.past, r.act.key);
      }
      StepHoldsSound(cfg, After(r.past), r.act, i);
    }
  }

  // ---------- How an entry is lost ----------

  // The key was Set again after the getter read it.
  predicate SetSinceRead(r: Run, i: nat, key: string) {
    r.Then? && !(r.act.Read? && r.act.i == i) && ((r.act.Set? && r.act.key == key) || SetSinceRead(r.past, i, key))
  }

  lemma {:induction false} OnlySetsChangeLatest(r: Run, i: nat, key: string)
    requires !SetSinceRead(r, i, key) && key in Latest(ReadBy(r, i))
    ensures key in Latest(r) && Latest(r)[key] == Latest(ReadBy(r, i))[key]
  {
    if r.Then? && !(r.act.Read? && r.act.i == i) {
      OnlySetsChangeLatest(r.past, i, key);
    }
  }

  // The last Set of the key after the getter read it.
  function SetAfterRead(r: Run, i: nat, key: string): Option<Stored> {
    if r.Start? || (r.act.Read? && r.act.i == i) then None
    else if r.act.Set? && r.act.key == key then Some(r.act.entry)
    else SetAfterRead(r.past, i, key)
  }

  lemma {:induction false} SetAfterReadIsLatest(r: Run, i: nat, key: string)
    ensures SetAfterRead(r, i, key).Some? <==> SetSinceRead(r, i, key)
    ensures SetSinceRead(r, i, key) ==> IsLatest(r, key, SetAfterRead(r, i, key).value)
  {
    if r.Then? {
      SetAfterReadIsLatest(r.past, i, key);
    }
  }

  // A Get that found its entry expired deletes whatever is there by then.  That is an entry
  // not yet expired exactly when somebody Set the key after the Get had read it, and the last
  // to do so stored one that has not expired.
  lemma StaleDeleteExactly(cfg: Config, r: Run, i: nat, now: int)
    requires Legal(cfg, Then(r, Delete(i, now))) && At(After(r), i).key in After(r).table
    ensures var key := At(After(r), i).key;
            now <= After(r).table[key].expiresAt
            <==> SetAfterRead(r, i, key).Some? && now <= SetAfterRead(r, i, key).value.expiresAt
  {
    var key := At(After(r), i).key;
    GettersFollowTheirReads(cfg, r, i);
    TableHoldsLastWrites(r, key);
    SetAfterReadIsLatest(r, i, key);
    if !SetSinceRead(r, i, key) {
      OnlySetsChangeLatest(r, i, key);
    }
  }

  // The step that took a key out of the table last.
  function RemovalOf(r: Run, key: string): Run {
    if r.Start? || (key in After(r.past).table && key !in After(r).table) then r else RemovalOf(r.past, key)
  }

  // Why a step may take a key out: its entry has expired; or the cache is full, nothing in it
  // has expired and no entry is older; or it is a stale delete.
  ghost predicate MayRemove(cfg: Config, r: Run, a: Action, key: string)
    requires key in After(r).table
  {
    var s := After(r);
    || s.table[key].expiresAt < Effect(s, a).clock
    || (a.Set? && |s.table| >= cfg.maxSize && a.gone == {key}
        && (forall k :: k in s.table ==> s.table[key].createdAt <= s.table[k].createdAt)
        && (forall k :: k in s.table ==> s.clock <= s.table[k].expiresAt))
    || (a.Delete? && At(s, a.i).Doomed? && At(s, a.i).key == key && SetSinceRead(r, a.i, key))
  }

  lemma RemovalHasAReason(cfg: Config, r: Run, a: Action, key: string)
    requires Legal(cfg, Then(r, a)) && key in After(r).table && key !in Effect(After(r), a).table
    ensures MayRemove(cfg, r, a, key)
  {
    match a
    case Delete(i, now) =>
      StaleDeleteExactly(cfg, r, i, now);
      SetAfterReadIsLatest(r, i, key);
    case Set(_, _, gone, now) => assert key in gone;
    case _ =>
  }

  // Whatever was Set and is not there any more was taken out for one of those reasons.
  lemma {:induction false} LossesAreExplained(cfg: Config, r: Run, key: string)
    requires Legal(cfg, r) && key in Latest(r) && key !in After(r).table
    ensures var p := RemovalOf(r, key);
            && p.Then? && key in After(p.past).table && After(p.past).table[key] == Latest(r)[key]
            && MayRemove(cfg, p.past, p.act, key)
  {
    if key in After(r.past).table {
      RemovalHasAReason(cfg, r.past, r.act, key);
      TableHoldsLastWrites(r.past, key);
    } else {
      LossesAreExplained(cfg, r.past, key);
    }
  }

  // The last step deletes an entry that has not expired.
  ghost predicate DeletesFresh(cfg: Config, r: Run, i: nat, now: int) {
    && Legal(cfg, Then(r, Delete(i, now)))
    && var key := At(After(r), i).key;
       key in After(r).table && now <= After(r).table[key].expiresAt
  }

  function EntryAt(cfg: Config, msg: Msg, now: int): Stored {
    var ttl := StoredTtl(cfg, msg);
    Stored(msg, now, now + ttl, ttl, IsNegative(msg))
  }

  // The first Set of a run.
  lemma SetAlone(cfg: Config, key: string, msg: Msg) returns (r: Run)
    ensures r == Then(Start(0), Set(key, EntryAt(cfg, msg, 0), {}, 0)) && Legal(cfg, r)
    ensures key in After(r).table && After(r).table[key] == EntryAt(cfg, msg, 0) && |After(r).table| == 1
    ensures After(r).clock == 0 && At(After(r), 0) == Idle
  {
    var e := EntryAt(cfg, msg, 0);
    var empty: map<string, Stored> := map[];
    Removing(empty, {});
    Putting(empty - {}, key, e);
    assert After(Start(0)) == State(empty, map[], 0, 0, 0, 0, 0, 0);
    r := Then(Start(0), Set(key, e, {}, 0));
    assert After(r) == Effect(After(Start(0)), Set(key, e, {}, 0));
    assert After(r).table == (empty - {})[key := e];
  }

  // A getter reads the only entry and finds it expired.
  lemma FindsItExpired(cfg: Config, r: Run, key: string, now: int) returns (tested: Run)
    requires Legal(cfg, r) && key in After(r).table && At(After(r), 0) == Idle
    requires Expired(After(r).table[key], now) && After(r).clock <= now
    ensures Legal(cfg, tested) && At(After(tested), 0) == Doomed(key, now)
    ensures After(tested).table == After(r).table && After(tested).clock == After(r).clock
  {
    var read := Then(r, Read(0, key));
    assert At(After(read), 0) == Holding(key, After(r).table[key], After(r).clock);
    tested := Then(read, Test(0, now));
  }

  lemma OnlyKey(table: map<string, Stored>, key: string)
    requires key in table && |table| == 1
    ensures forall k :: k in table ==> k == key
  {
    var others := table.Keys - {key};
    assert |others| == 0;
    assert table.Keys == others + {key};
  }

  // The entry is replaced, if need be after making room by purging it.
  lemma Replaces(cfg: Config, r: Run, key: string, msg: Msg, now: int) returns (stored: Run)
    requires Legal(cfg, r) && key in After(r).table && |After(r).table| == 1
    requires Expired(After(r).table[key], now) && After(r).clock <= now
    ensures Legal(cfg, stored) && At(After(stored), 0) == At(After(r), 0) && After(stored).clock == now
    ensures key in After(stored).table && After(stored).table[key] == EntryAt(cfg, msg, now)
  {
    OnlyKey(After(r).table, key);
    stored := Then(r, Set(key, EntryAt(cfg, msg, now), if cfg.maxSize <= 1 then {key} else {}, now));
  }

  // A Get reads an entry and finds it expired, a Set replaces it, and the Get deletes the new
  // entry: whatever the size of the cache, for any message whose lifetime is not negative.
  lemma StaleDeleteLosesAFreshEntry(cfg: Config, key: string, msg: Msg) returns (r: Run, now: int)
    requires StoredTtl(cfg, msg) >= 0
    ensures DeletesFresh(cfg, r, 0, now) && At(After(r), 0).key == key
    ensures After(r).table[key] == EntryAt(cfg, msg, now)
  {
    now := StoredTtl(cfg, msg) + 1;
    var first := SetAlone(cfg, key, msg);
    var tested := FindsItExpired(cfg, first, key, now);
    r := Replaces(cfg, tested, key, msg, now);
  }

  // Exactly the configurations in which a stale delete can lose a fresh entry: all but those
  // in which no entry is ever fresh.
  lemma StaleDeleteIsPossibleExactly(cfg: Config)
    ensures (exists r, i, now :: DeletesFresh(cfg, r, i, now)) <==> cfg.maxTTL >= 0 || cfg.negativeTTL >= 0
  {
    var refusal := SetReply(NewRootQuery("a", TYPE_A)).(rcode := RCODE_NAME_ERROR);
    var answer := refusal.(rcode := RCODE_SUCCESS, answer := [RR(Header("a.", TYPE_A, CLASS_INET, 60), A(""))]);
    if cfg.negativeTTL >= 0 {
      var r, now := StaleDeleteLosesAFreshEntry(cfg, "a./A/IN", refusal);
    } else if cfg.maxTTL >= 0 {
      var r, now := StaleDeleteLosesAFreshEntry(cfg, "a./A/IN", answer);
    }
    forall r, i, now | DeletesFresh(cfg, r, i, now)
      ensures cfg.maxTTL >= 0 || cfg.negativeTTL >= 0
    {
      EntriesAreSound(cfg, r, At(After(r), i).key);
    }
  }
}
